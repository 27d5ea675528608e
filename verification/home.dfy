/** The storefront's home page (src/pages/index.tsx): loading the menu,
    the category tabs and the sign-in gate in front of the cart. */
module Home {
  import opened Models
  import opened Text
  import Seqs
  import Cart

  const MSG_NO_ITEMS: string := "No items available at the moment"
  const MSG_LOAD_FAILED: string := "Error loading items"

  /** What `item.getListItems("")` gave: a throw carrying the server's
      message ("" when there is none), a null body, or a list. */
  datatype ItemsResponse = ItemsThrew(serverMessage: string) | ItemsNull | ItemsReturned(items: seq<Item>)

  /** The page's `items` and `error` once the fetch settled. */
  datatype HomeState = HomeState(items: seq<Item>, error: Option<string>)

  function Available(): Item -> bool
  {
    (x: Item) => x.availability == 1
  }

  /** fetchItems. An empty or missing list is reported and clears the menu;
      a list shows its available items in order; a throw keeps the menu
      already shown and reports the server's message or a default. */
  function FetchItems(previous: seq<Item>, response: ItemsResponse): (r: HomeState)
    ensures r.error.None? <==> response.ItemsReturned? && |response.items| > 0
    ensures !response.ItemsThrew? ==> (r.error == Some(MSG_NO_ITEMS) <==> response.ItemsNull? || response == ItemsReturned([]))
    ensures (response.ItemsNull? || response == ItemsReturned([])) ==> r.items == [] && r.error == Some(MSG_NO_ITEMS)
    ensures response.ItemsReturned? ==>
      && (forall i :: 0 <= i < |r.items| ==> r.items[i].availability == 1)
      && (forall i :: 0 <= i < |response.items| && response.items[i].availability == 1 ==> response.items[i] in r.items)
      && Seqs.IsSubsequence(r.items, response.items)
    ensures response.ItemsThrew? ==> r.items == previous && r.error.Some? && r.error.value != ""
    ensures response.ItemsThrew? && response.serverMessage != "" ==> r.error == Some(response.serverMessage)
  {
    match response
    case ItemsThrew(msg) => HomeState(previous, Some(if msg != "" then msg else MSG_LOAD_FAILED))
    case ItemsNull => HomeState([], Some(MSG_NO_ITEMS))
    case ItemsReturned(items) =>
      if |items| == 0 then HomeState([], Some(MSG_NO_ITEMS))
      else
        Seqs.FilterIsSubsequence(items, Available());
        HomeState(Seqs.Filter(items, Available()), None)
  }

  /** Nothing unavailable ever reaches the menu, whatever the sequence of
      fetches. */
  lemma FetchKeepsAvailable(previous: seq<Item>, response: ItemsResponse)
    requires forall i :: 0 <= i < |previous| ==> previous[i].availability == 1
    ensures forall i :: 0 <= i < |FetchItems(previous, response).items| ==> FetchItems(previous, response).items[i].availability == 1
  {
  }

  function InTab(tab: string): Item -> bool
  {
    (x: Item) => ToLower(x.category) == tab
  }

  /** `filteredItems`: every item on "all", otherwise the items whose
      lower-cased category is the tab key. */
  function TabItems(items: seq<Item>, tab: string): (r: seq<Item>)
    ensures tab == "all" ==> r == items
    ensures tab != "all" ==> forall i :: 0 <= i < |r| ==> ToLower(r[i].category) == tab
    ensures tab != "all" ==> forall i :: 0 <= i < |items| && ToLower(items[i].category) == tab ==> items[i] in r
  {
    if tab == "all" then items else Seqs.Filter(items, InTab(tab))
  }

  /** The lower case of the category names the administration page offers,
      one name per lemma so that each stays cheap to check. */
  lemma LowerFood()
    ensures ToLower("Food") == "food"
  {
    var l := ToLower("Food");
    assert l[0] == 'f' && l[1] == 'o' && l[2] == 'o' && l[3] == 'd';
  }

  lemma LowerBeverage()
    ensures ToLower("Beverage") == "beverage"
  {
    var l := ToLower("Beverage");
    assert l[0] == 'b' && l[1] == 'e' && l[2] == 'v' && l[3] == 'e';
    assert l[4] == 'r' && l[5] == 'a' && l[6] == 'g' && l[7] == 'e';
  }

  lemma LowerOthers()
    ensures ToLower("Others") != "food" && ToLower("Others") != "beverage"
  {
    assert ToLower("Others")[0] == 'o';
  }

  /** The categories the administration page offers land on the home tabs
      "food" and "beverage" whatever their case; an "Others" item shows on
      "all" only. */
  lemma CategoriesOnTabs(x: Item)
    ensures x.category == "Food" ==> TabItems([x], "food") == [x] && TabItems([x], "beverage") == []
    ensures x.category == "Beverage" ==> TabItems([x], "beverage") == [x] && TabItems([x], "food") == []
    ensures x.category == "Others" ==> TabItems([x], "food") == [] && TabItems([x], "beverage") == []
    ensures TabItems([x], "all") == [x]
  {
    TabOfOne(x, "food");
    TabOfOne(x, "beverage");
    if x.category == "Food" {
      LowerFood();
    } else if x.category == "Beverage" {
      LowerBeverage();
    } else if x.category == "Others" {
      LowerOthers();
    }
  }

  /** A single item is on a tab other than "all" exactly when its
      lower-cased category is the key. */
  lemma TabOfOne(x: Item, tab: string)
    requires tab != "all"
    ensures TabItems([x], tab) == if ToLower(x.category) == tab then [x] else []
  {
    Seqs.FilterSingleton(x, InTab(tab));
  }

  /** What pressing "add to cart" leaves: the sign-in prompt, or the cart
      with the item added. */
  datatype AddOutcome = AddOutcome(loginPrompt: bool, cart: Cart.CartState)

  /** handleAddToCart: without a session only the prompt appears. */
  function AddToCartGate(hasSession: bool, cart: Cart.CartState, item: Item): (o: AddOutcome)
    ensures o.loginPrompt <==> !hasSession
    ensures !hasSession ==> o.cart == cart
    ensures hasSession ==> Cart.HasLine(o.cart.items, item.itemId)
    ensures Cart.Valid(cart) ==> Cart.Valid(o.cart)
  {
    if !hasSession then AddOutcome(true, cart)
    else
      if Cart.Valid(cart) then
        Cart.AddPreservesValid(cart, item);
        AddOutcome(false, Cart.AddToCart(cart, item))
      else
        AddOutcome(false, Cart.AddToCart(cart, item))
  }
}
