/** The item management page (src/pages/admin/item.tsx): the table keeps
    `originalData` (everything fetched) and `processingData` (what the search
    and category filters let through), and every edit is applied to both. */
module AdminItems {
  import opened Models
  import opened Text
  import Seqs
  import Helpers
  import Global

  datatype ItemsPage = ItemsPage(
    original: seq<Item>,
    processing: seq<Item>,
    searchText: string,
    categoryFilter: Option<string>)

  // ---------------------------------------------------------------------
  // The filter effect
  // ---------------------------------------------------------------------

  /** The name test: the lower-cased name contains the lower-cased text. */
  function NameMatches(searchText: string): Item -> bool
  {
    (x: Item) => Contains(ToLower(x.itemName), ToLower(searchText))
  }

  /** The category test: "Others" is everything that is neither "Food" nor
      "Beverage"; any other value must match exactly. */
  function CategoryMatches(category: string): Item -> bool
  {
    (x: Item) => if category == "Others" then x.category != "Food" && x.category != "Beverage"
                 else x.category == category
  }

  /** A category filter is applied only when it is set and non-empty. */
  predicate FilterSet(categoryFilter: Option<string>) {
    categoryFilter.Some? && categoryFilter.value != ""
  }

  /** Whether an item survives both filters. */
  function Passes(searchText: string, categoryFilter: Option<string>): Item -> bool
  {
    (x: Item) =>
      && (searchText == "" || NameMatches(searchText)(x))
      && (!FilterSet(categoryFilter) || CategoryMatches(categoryFilter.value)(x))
  }

  /** The effect on [searchText, categoryFilter, originalData]: the search
      filter, then the category filter, each only when set. */
  function ApplyFilters(original: seq<Item>, searchText: string, categoryFilter: Option<string>): (r: seq<Item>)
    ensures searchText == "" && !FilterSet(categoryFilter) ==> r == original
    ensures forall i :: 0 <= i < |r| ==> Passes(searchText, categoryFilter)(r[i])
    ensures forall i :: 0 <= i < |original| && Passes(searchText, categoryFilter)(original[i]) ==> original[i] in r
    ensures r == Seqs.Filter(original, Passes(searchText, categoryFilter))
  {
    var afterSearch := if searchText != "" then Seqs.Filter(original, NameMatches(searchText)) else original;
    var r := if FilterSet(categoryFilter) then Seqs.Filter(afterSearch, CategoryMatches(categoryFilter.value)) else afterSearch;
    ApplyFiltersIsOneFilter(original, searchText, categoryFilter, r);
    r
  }

  /** The two filters in a row are one filter by Passes. */
  lemma ApplyFiltersIsOneFilter(original: seq<Item>, searchText: string, categoryFilter: Option<string>, r: seq<Item>)
    requires r == (var afterSearch := if searchText != "" then Seqs.Filter(original, NameMatches(searchText)) else original;
                   if FilterSet(categoryFilter) then Seqs.Filter(afterSearch, CategoryMatches(categoryFilter.value)) else afterSearch)
    ensures r == Seqs.Filter(original, Passes(searchText, categoryFilter))
  {
    var pass := Passes(searchText, categoryFilter);
    if searchText != "" && FilterSet(categoryFilter) {
      Seqs.FilterFilter(original, NameMatches(searchText), CategoryMatches(categoryFilter.value), pass);
    } else if searchText != "" {
      Seqs.FilterCongruent(original, NameMatches(searchText), pass);
    } else if FilterSet(categoryFilter) {
      Seqs.FilterCongruent(original, CategoryMatches(categoryFilter.value), pass);
    } else {
      Seqs.FilterCongruent(original, (x: Item) => true, pass);
    }
  }

  /** The table shows an order-preserving sublist of everything fetched, and
      no other such sublist of passing items is longer: it is exactly the
      passing items, in order. */
  lemma ApplyFiltersIsSublist(original: seq<Item>, searchText: string, categoryFilter: Option<string>, t: seq<Item>)
    ensures Seqs.IsSubsequence(ApplyFilters(original, searchText, categoryFilter), original)
    ensures Seqs.IsSubsequence(t, original) && (forall x :: x in t ==> Passes(searchText, categoryFilter)(x)) ==>
      Seqs.IsSubsequence(t, ApplyFilters(original, searchText, categoryFilter))
  {
    var pass := Passes(searchText, categoryFilter);
    Seqs.FilterIsSubsequence(original, pass);
    if Seqs.IsSubsequence(t, original) && (forall x :: x in t ==> pass(x)) {
      Seqs.FilterIsGreatest(original, pass, t);
    }
  }

  /** The table is in step with the filters. */
  predicate Synced(p: ItemsPage) {
    p.processing == ApplyFilters(p.original, p.searchText, p.categoryFilter)
  }

  /** What the effect leaves once it has run. */
  function Settle(p: ItemsPage): (r: ItemsPage)
    ensures Synced(r)
    ensures r.original == p.original
  {
    p.(processing := ApplyFilters(p.original, p.searchText, p.categoryFilter))
  }

  /** handleClearFilters: both filters unset and the full list shown. */
  function ClearFilters(p: ItemsPage): (r: ItemsPage)
    ensures Synced(r)
    ensures r.processing == p.original && r.original == p.original
  {
    ItemsPage(p.original, p.original, "", None)
  }

  // ---------------------------------------------------------------------
  // Create, delete, edit
  // ---------------------------------------------------------------------

  /** handleCreateSubmit after the server answered: the created item goes in
      front of both lists. */
  function CreateItem(p: ItemsPage, created: Item): (r: ItemsPage)
    ensures |r.original| == |p.original| + 1 && |r.processing| == |p.processing| + 1
    ensures r.original[0] == created && r.original[1..] == p.original
    ensures r.processing[0] == created && r.processing[1..] == p.processing
    ensures r.searchText == p.searchText && r.categoryFilter == p.categoryFilter
  {
    p.(original := [created] + p.original, processing := [created] + p.processing)
  }

  /** The prepend to the shown list agrees with the filter effect that runs
      afterwards exactly when the new item passes the filters; otherwise the
      effect takes it off the table again. */
  lemma CreateThenSettle(p: ItemsPage, created: Item)
    requires Synced(p)
    ensures Passes(p.searchText, p.categoryFilter)(created) ==> Settle(CreateItem(p, created)) == CreateItem(p, created)
    ensures !Passes(p.searchText, p.categoryFilter)(created) ==> Settle(CreateItem(p, created)).processing == p.processing
  {
    assert ([created] + p.original)[1..] == p.original;
  }

  /** handleCreateSubmit around the createItem call: the returned item is
      prepended when the call answered; when it threw, both lists stay and
      toastError's text is shown. */
  function HandleCreate(p: ItemsPage, call: Global.Call<Item>): (o: Global.Handled<ItemsPage>)
    ensures o.toast.Some? <==> call.Threw?
    ensures o.toast.Some? ==> o.state == p
    ensures call.Threw? ==> o.toast == Some(Global.ToastError(call.error))
    ensures call.Answered? ==> o.state == CreateItem(p, call.value)
    ensures call.Answered? ==> o.state.original[0] == call.value && o.state.original[1..] == p.original
  {
    match call
    case Threw(e) => Global.Handled(p, Some(Global.ToastError(e)))
    case Answered(created) => Global.Handled(CreateItem(p, created), None)
  }

  function OtherId(id: int): Item -> bool
  {
    (x: Item) => x.itemId != id
  }

  /** onOk of the delete confirmation: the item with that id leaves both
      lists; the rest stay in order. */
  function DeleteItem(p: ItemsPage, id: int): (r: ItemsPage)
    ensures forall i :: 0 <= i < |r.original| ==> r.original[i].itemId != id
    ensures forall i :: 0 <= i < |r.processing| ==> r.processing[i].itemId != id
    ensures forall i :: 0 <= i < |p.original| && p.original[i].itemId != id ==> p.original[i] in r.original
    ensures forall i :: 0 <= i < |p.processing| && p.processing[i].itemId != id ==> p.processing[i] in r.processing
    ensures Seqs.IsSubsequence(r.original, p.original) && Seqs.IsSubsequence(r.processing, p.processing)
  {
    Seqs.FilterIsSubsequence(p.original, OtherId(id));
    Seqs.FilterIsSubsequence(p.processing, OtherId(id));
    p.(original := Seqs.Filter(p.original, OtherId(id)), processing := Seqs.Filter(p.processing, OtherId(id)))
  }

  /** Deleting from both lists keeps the table in step with the filters: no
      re-filtering is needed. */
  lemma DeleteKeepsSynced(p: ItemsPage, id: int)
    requires Synced(p)
    ensures Synced(DeleteItem(p, id))
  {
    var pass := Passes(p.searchText, p.categoryFilter);
    Seqs.FilterCommutes(p.original, pass, OtherId(id));
  }

  /** onOk around the deleteItem call: the item leaves both lists when the
      call answered; when it threw, nothing is removed and toastError's text
      is shown. */
  function HandleDelete(p: ItemsPage, id: int, call: Global.Call<()>): (o: Global.Handled<ItemsPage>)
    ensures o.toast.Some? <==> call.Threw?
    ensures o.toast.Some? ==> o.state == p
    ensures call.Threw? ==> o.toast == Some(Global.ToastError(call.error))
    ensures call.Answered? ==> o.state == DeleteItem(p, id)
    ensures forall i :: 0 <= i < |o.state.original| ==> o.state.original[i] in p.original
  {
    match call
    case Threw(e) => Global.Handled(p, Some(Global.ToastError(e)))
    case Answered(_) => Global.Handled(DeleteItem(p, id), None)
  }

  function SameId(id: int): Item -> bool
  {
    (x: Item) => x.itemId == id
  }

  function Replace(updated: Item): Item -> Item
  {
    (x: Item) => updated
  }

  /** The edit form's onFinish after the server answered: every entry with
      the selected id is replaced by the updated record (carrying that id);
      everything else, and both lengths, stay. */
  function EditItem(p: ItemsPage, id: int, updated: Item): (r: ItemsPage)
    ensures |r.original| == |p.original| && |r.processing| == |p.processing|
    ensures forall i :: 0 <= i < |p.original| ==>
      r.original[i] == if p.original[i].itemId == id then updated.(itemId := id) else p.original[i]
    ensures forall i :: 0 <= i < |p.processing| ==>
      r.processing[i] == if p.processing[i].itemId == id then updated.(itemId := id) else p.processing[i]
  {
    var record := updated.(itemId := id);
    p.(original := Seqs.MapWhere(p.original, SameId(id), Replace(record)),
       processing := Seqs.MapWhere(p.processing, SameId(id), Replace(record)))
  }

  /** The in-place replacement agrees with the filter effect that runs
      afterwards when the new record passes the filters exactly when the
      entries it replaces did. */
  lemma EditThenSettle(p: ItemsPage, id: int, updated: Item)
    requires Synced(p)
    requires forall x :: x in p.original && x.itemId == id ==>
      Passes(p.searchText, p.categoryFilter)(x) == Passes(p.searchText, p.categoryFilter)(updated.(itemId := id))
    ensures Settle(EditItem(p, id, updated)) == EditItem(p, id, updated)
  {
    var pass := Passes(p.searchText, p.categoryFilter);
    var record := updated.(itemId := id);
    var s := p.original;
    assert forall i :: 0 <= i < |s| && SameId(id)(s[i]) ==> pass(Replace(record)(s[i])) == pass(s[i]) by {
      forall i | 0 <= i < |s| && SameId(id)(s[i])
        ensures pass(Replace(record)(s[i])) == pass(s[i])
      {
        assert s[i] in s;
      }
    }
    Seqs.FilterMapWhere(s, pass, SameId(id), Replace(record));
    var e := EditItem(p, id, updated);
    assert e.processing == Seqs.MapWhere(Seqs.Filter(s, pass), SameId(id), Replace(record));
    assert e.processing == Seqs.Filter(e.original, pass);
  }

  /** A record that fails the filters is taken off the table by the effect
      that follows the edit. */
  lemma EditFailingRecordLeaves(p: ItemsPage, id: int, updated: Item)
    requires !Passes(p.searchText, p.categoryFilter)(updated.(itemId := id))
    ensures forall x :: x in Settle(EditItem(p, id, updated)).processing ==> x.itemId != id
  {
    var pass := Passes(p.searchText, p.categoryFilter);
    var record := updated.(itemId := id);
    var edited := EditItem(p, id, updated).original;
    var settled := Settle(EditItem(p, id, updated)).processing;
    assert settled == Seqs.Filter(edited, pass);
    assert forall x :: x in edited && x.itemId == id ==> x == record by {
      forall x | x in edited && x.itemId == id
        ensures x == record
      {
        var j :| 0 <= j < |edited| && edited[j] == x;
      }
    }
    forall x | x in settled
      ensures x.itemId != id
    {
      var i :| 0 <= i < |settled| && settled[i] == x;
      assert x in edited && pass(x);
    }
  }

  /** The edit form's onFinish around the updateItem call: the record
      replaces the entries with the selected id when the call answered; when
      it threw, both lists stay and toastError's text is shown. */
  function HandleEdit(p: ItemsPage, id: int, updated: Item, call: Global.Call<()>): (o: Global.Handled<ItemsPage>)
    ensures o.toast.Some? <==> call.Threw?
    ensures o.toast.Some? ==> o.state == p
    ensures call.Threw? ==> o.toast == Some(Global.ToastError(call.error))
    ensures call.Answered? ==> o.state == EditItem(p, id, updated)
    ensures |o.state.original| == |p.original| && |o.state.processing| == |p.processing|
  {
    match call
    case Threw(e) => Global.Handled(p, Some(Global.ToastError(e)))
    case Answered(_) => Global.Handled(EditItem(p, id, updated), None)
  }

  // ---------------------------------------------------------------------
  // The price field
  // ---------------------------------------------------------------------

  /** The price input's onChange: keep the digits typed, show them formatted. */
  function PriceFieldOnChange(typed: string): (field: string)
    ensures field == "" <==> KeepDigits(typed) == ""
    ensures field != "" ==> Helpers.Grouped(field)
  {
    Helpers.FormatPrice(Helpers.Digits(KeepDigits(typed)))
  }

  /** `values.price.toString().replace(/\./g, "")`: what create and edit send. */
  function SubmittedPrice(field: string): (raw: string)
    ensures forall i :: 0 <= i < |raw| ==> raw[i] != '.'
  {
    Helpers.StripDots(field)
  }

  /** What reaches the server is the number typed, without the dots the
      field added and without leading zeros. */
  lemma PriceFieldRoundTrip(typed: string)
    ensures var digits := KeepDigits(typed);
      SubmittedPrice(PriceFieldOnChange(typed)) == if digits == "" then "" else NatToString(DigitsValue(digits))
  {
  }

  /** Keeping the digits of a grouped price is removing its dots. */
  lemma KeepDigitsOfGrouped(r: string)
    requires Helpers.Grouped(r)
    ensures KeepDigits(r) == Helpers.StripDots(r)
  {
    Seqs.FilterCongruent(r, IsDigit, Helpers.NotDot);
  }

  /** Each keystroke re-formats the field, and re-formatting a formatted
      field changes nothing. */
  lemma PriceFieldStable(typed: string)
    ensures PriceFieldOnChange(PriceFieldOnChange(typed)) == PriceFieldOnChange(typed)
  {
    var field := PriceFieldOnChange(typed);
    if field != "" {
      var c := NatToString(DigitsValue(KeepDigits(typed)));
      KeepDigitsOfGrouped(field);
      NatToStringOfValue(c);
    }
  }

  /** The edit form opens with `formatPrice(record.price.toString() || "")`. */
  function EditFormPrice(record: Item): (field: string)
    ensures field != "" && Helpers.Grouped(field)
  {
    NatToStringOfValue(NatToString(record.price));
    Helpers.FormatPrice(Helpers.Digits(NatToString(record.price)))
  }

  /** Saving the edit form without touching the price sends the stored
      price back unchanged, zero included. */
  lemma EditPriceRoundTrip(record: Item)
    ensures SubmittedPrice(EditFormPrice(record)) == NatToString(record.price)
  {
    NatToStringOfValue(NatToString(record.price));
  }
}
