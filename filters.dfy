/** The list filters of the admin pages and the restaurant picker: a status
    filter followed by a case-insensitive substring search. */
module Filters {
  import opened Seqs
  import opened Text
  import Users

  // ---------------------------------------------------------------------
  // Shared search test

  /** `field.toLowerCase().includes(query)`, where `query` has already been
      lower-cased. */
  predicate Matches(field: string, query: string)
  {
    Contains(Lower(field), query)
  }

  /** A nullable field matched through `?.`: null never matches. */
  predicate MatchesOpt(field: Option<string>, query: string)
  {
    field.Some? && Matches(field.value, query)
  }

  lemma LowerCharIdempotent(c: char)
    ensures LowerChar(LowerChar(c)) == LowerChar(c)
    ensures IsSpace(LowerChar(c)) <==> IsSpace(c)
  {
  }

  /** Lower-casing keeps whitespace where it is, so a query is blank exactly
      when its lower-cased form is. */
  lemma LowerKeepsBlank(q: string)
    ensures IsBlank(Lower(q)) <==> IsBlank(q)
  {
    BlankIffAllSpace(q);
    BlankIffAllSpace(Lower(q));
    forall i | 0 <= i < |q|
      ensures IsSpace(Lower(q)[i]) <==> IsSpace(q[i])
    {
      LowerCharIdempotent(q[i]);
    }
  }

  // ---------------------------------------------------------------------
  // UserManagement.filterUsers

  /** `u.role !== 'inactive'`: a null role passes. */
  predicate NotInactive(u: Users.Profile)
  {
    u.role != Some(Users.Inactive)
  }

  /** The first two disjuncts of the search test. */
  predicate NameMatches(u: Users.Profile, query: string)
  {
    MatchesOpt(u.fullName, query) || MatchesOpt(u.companyName, query)
  }

  /** The whole search test, defined when it does not reach a null role. */
  predicate UserMatches(u: Users.Profile, query: string)
  {
    NameMatches(u, query) || (u.role.Some? && Matches(u.role.value, query))
  }

  /** `u.role.toLowerCase()` on a null role throws: the search test reaches
      it when neither name matches. */
  predicate ThrowsOn(u: Users.Profile, query: string)
  {
    !NameMatches(u, query) && u.role.None?
  }

  /** The list after the status filter. */
  function StatusFilteredUsers(users: seq<Users.Profile>, showInactive: bool): seq<Users.Profile>
  {
    if showInactive then users else Filter(users, NotInactive)
  }

  /** `filterUsers`: `Err` when the search callback throws. */
  function FilterUsers(users: seq<Users.Profile>, searchQuery: string, showInactive: bool)
    : Result<seq<Users.Profile>, string>
  {
    SearchUsers(StatusFilteredUsers(users, showInactive), IsBlank(searchQuery), Lower(searchQuery))
  }

  /** The search step, given whether the raw query is blank and its
      lower-cased form. */
  function SearchUsers(byStatus: seq<Users.Profile>, blank: bool, query: string)
    : Result<seq<Users.Profile>, string>
  {
    if blank then Ok(byStatus)
    else if exists u :: u in byStatus && ThrowsOn(u, query) then Err("TypeError")
    else Ok(Filter(byStatus, u => UserMatches(u, query)))
  }

  /** The status filter keeps, in order, the profiles it admits. */
  lemma StatusFilterSpec(users: seq<Users.Profile>, showInactive: bool)
    ensures IsSubsequence(StatusFilteredUsers(users, showInactive), users)
    ensures forall u :: u in StatusFilteredUsers(users, showInactive) <==>
      u in users && (showInactive || NotInactive(u))
  {
    if showInactive {
      IsSubsequenceRefl(users);
    } else {
      FilterIsSubsequence(users, NotInactive);
    }
  }

  /** The search step on its own: the profiles of `byStatus` the search
      test admits, in order. */
  lemma SearchStepSpec(byStatus: seq<Users.Profile>, query: string)
    ensures IsSubsequence(Filter(byStatus, u => UserMatches(u, query)), byStatus)
    ensures forall u :: u in Filter(byStatus, u => UserMatches(u, query)) <==>
      u in byStatus && UserMatches(u, query)
  {
    FilterIsSubsequence(byStatus, u => UserMatches(u, query));
  }

  /** What `filterUsers` keeps: an order-preserving subsequence; without
      `showInactive` no inactive profile; with a blank query exactly the
      status filter; otherwise exactly the profiles that pass the status
      filter and whose name, company or role contains the lower-cased,
      untrimmed query. */
  lemma FilterUsersSpec(users: seq<Users.Profile>, searchQuery: string, showInactive: bool)
    ensures var r := FilterUsers(users, searchQuery, showInactive);
      r.Ok? ==>
        IsSubsequence(r.value, users) &&
        (!showInactive ==> forall u :: u in r.value ==> u.role != Some(Users.Inactive)) &&
        (IsBlank(searchQuery) ==> r.value == StatusFilteredUsers(users, showInactive)) &&
        (!IsBlank(searchQuery) ==> forall u :: u in r.value <==>
          u in users && (showInactive || NotInactive(u)) && UserMatches(u, Lower(searchQuery)))
  {
    var byStatus := StatusFilteredUsers(users, showInactive);
    StatusFilterSpec(users, showInactive);
    if !IsBlank(searchQuery) {
      var query := Lower(searchQuery);
      var kept := Filter(byStatus, u => UserMatches(u, query));
      SearchStepSpec(byStatus, query);
      IsSubsequenceTrans(kept, byStatus, users);
    }
  }

  /** `filterUsers` throws exactly when the query is not blank and some
      profile past the status filter has a null role and no matching name. */
  lemma FilterUsersThrows(users: seq<Users.Profile>, searchQuery: string, showInactive: bool)
    ensures FilterUsers(users, searchQuery, showInactive).Err? <==>
      !IsBlank(searchQuery) &&
      exists u :: u in users && (showInactive || NotInactive(u)) && ThrowsOn(u, Lower(searchQuery))
  {
    var query := Lower(searchQuery);
    StatusFilterSpec(users, showInactive);
    SearchUsersErr(StatusFilteredUsers(users, showInactive), IsBlank(searchQuery), query);
    ExistsAmongKept(users, StatusFilteredUsers(users, showInactive),
      u => showInactive || NotInactive(u), u => ThrowsOn(u, query));
  }

  lemma SearchUsersErr(byStatus: seq<Users.Profile>, blank: bool, query: string)
    ensures SearchUsers(byStatus, blank, query).Err? <==>
      !blank && exists u :: u in byStatus && ThrowsOn(u, query)
  {
  }

  /** Some kept element has `p` iff some element of `xs` passes `keep` and has `p`. */
  lemma ExistsAmongKept<T>(xs: seq<T>, kept: seq<T>, keep: T -> bool, p: T -> bool)
    requires forall u :: u in kept <==> u in xs && keep(u)
    ensures (exists u :: u in kept && p(u)) <==> (exists u :: u in xs && keep(u) && p(u))
  {
  }

  /** With no profile whose role is null, the search never throws. */
  lemma FilterUsersTotal(users: seq<Users.Profile>, searchQuery: string, showInactive: bool)
    requires forall u :: u in users ==> u.role.Some?
    ensures FilterUsers(users, searchQuery, showInactive).Ok?
  {
    FilterUsersThrows(users, searchQuery, showInactive);
  }

  /** Upper- and lower-case spellings of a query select the same profiles. */
  lemma FilterUsersCaseInsensitive(users: seq<Users.Profile>, q1: string, q2: string, showInactive: bool)
    requires Lower(q1) == Lower(q2)
    ensures FilterUsers(users, q1, showInactive) == FilterUsers(users, q2, showInactive)
  {
    LowerKeepsBlank(q1);
    LowerKeepsBlank(q2);
  }

  lemma IsSubsequenceRefl<T(!new)>(xs: seq<T>)
    ensures IsSubsequence(xs, xs)
  {
    FilterAll(xs, x => true);
    FilterIsSubsequence(xs, x => true);
  }

  // ---------------------------------------------------------------------
  // RestaurantManagement.filterRestaurants

  /** A `restaurants` row; `is_active` is nullable, and null is falsy. */
  datatype RestaurantRow = RestaurantRow(
    id: string,
    name: string,
    address: string,
    cuisine: string,
    rating: Option<real>,
    imageUrl: Option<string>,
    isActive: Option<bool>)

  predicate IsActive(r: RestaurantRow)
  {
    r.isActive == Some(true)
  }

  /** Name, cuisine or address contains the lower-cased query. */
  predicate RowMatches(r: RestaurantRow, query: string)
  {
    Matches(r.name, query) || Matches(r.cuisine, query) || Matches(r.address, query)
  }

  /** `filterRestaurants`. */
  function FilterRestaurants(restaurants: seq<RestaurantRow>, searchQuery: string, showInactive: bool)
    : seq<RestaurantRow>
  {
    var byStatus := if showInactive then restaurants else Filter(restaurants, IsActive);
    if IsBlank(searchQuery) then byStatus
    else Filter(byStatus, r => RowMatches(r, Lower(searchQuery)))
  }

  /** What `filterRestaurants` keeps: an order-preserving subsequence;
      without `showInactive` only active rows; with a blank query exactly
      the status filter; otherwise exactly the rows that pass the status
      filter and whose name, cuisine or address contains the query. */
  lemma FilterRestaurantsSpec(restaurants: seq<RestaurantRow>, searchQuery: string, showInactive: bool)
    ensures var r := FilterRestaurants(restaurants, searchQuery, showInactive);
      IsSubsequence(r, restaurants) &&
      (!showInactive ==> forall x :: x in r ==> x.isActive == Some(true)) &&
      (IsBlank(searchQuery) && showInactive ==> r == restaurants) &&
      (IsBlank(searchQuery) && !showInactive ==> r == Filter(restaurants, IsActive)) &&
      (!IsBlank(searchQuery) ==> forall x :: x in r <==>
        x in restaurants && (showInactive || IsActive(x)) && RowMatches(x, Lower(searchQuery)))
  {
    var byStatus := if showInactive then restaurants else Filter(restaurants, IsActive);
    if showInactive {
      IsSubsequenceRefl(restaurants);
    } else {
      FilterIsSubsequence(restaurants, IsActive);
    }
    if !IsBlank(searchQuery) {
      var p := r => RowMatches(r, Lower(searchQuery));
      FilterIsSubsequence(byStatus, p);
      IsSubsequenceTrans(Filter(byStatus, p), byStatus, restaurants);
    }
  }

  // ---------------------------------------------------------------------
  // RestaurantSelector

  /** The picker's own `Restaurant` shape. */
  datatype Listing = Listing(
    id: string,
    name: string,
    address: string,
    cuisine: string,
    rating: Option<real>,
    imageUrl: Option<string>)

  /** Shown until the database returns at least one restaurant. */
  const Fallback := [Listing(
    "1",
    "Table Pilot",
    "123 Fine Dining Street, Downtown District",
    "Fine Dining",
    Some(4.8),
    Some("/lovable-uploads/d1a98a63-2cc5-4972-9f0d-87d62451a02b.png"))]

  /** The transform applied to a fetched row: `image_url || undefined`. */
  function ToListing(r: RestaurantRow): (l: Listing)
    ensures l.id == r.id && l.name == r.name && l.address == r.address
    ensures l.cuisine == r.cuisine && l.rating == r.rating
    ensures l.imageUrl.Some? <==> r.imageUrl.Some? && r.imageUrl.value != ""
    ensures l.imageUrl.Some? ==> l.imageUrl == r.imageUrl
  {
    Listing(r.id, r.name, r.address, r.cuisine, r.rating,
      if r.imageUrl.Some? && r.imageUrl.value != "" then r.imageUrl else None)
  }

  /** `data.map(...)` with the transformation above. */
  function ToListings(rows: seq<RestaurantRow>): (ls: seq<Listing>)
    ensures |ls| == |rows|
    ensures forall k :: 0 <= k < |rows| ==> ls[k] == ToListing(rows[k])
  {
    seq(|rows|, k requires 0 <= k < |rows| => ToListing(rows[k]))
  }

  predicate ListingMatches(l: Listing, query: string)
  {
    Matches(l.name, query) || Matches(l.cuisine, query) || Matches(l.address, query)
  }

  /** The search effect: a blank query shows everything, otherwise the
      restaurants whose name, cuisine or address contains the query. */
  function SearchListings(restaurants: seq<Listing>, searchQuery: string): seq<Listing>
  {
    if IsBlank(searchQuery) then restaurants
    else Filter(restaurants, l => ListingMatches(l, Lower(searchQuery)))
  }

  lemma SearchListingsSpec(restaurants: seq<Listing>, searchQuery: string)
    ensures IsSubsequence(SearchListings(restaurants, searchQuery), restaurants)
    ensures IsBlank(searchQuery) ==> SearchListings(restaurants, searchQuery) == restaurants
    ensures !IsBlank(searchQuery) ==> forall l :: l in SearchListings(restaurants, searchQuery) <==>
      l in restaurants && ListingMatches(l, Lower(searchQuery))
  {
    if IsBlank(searchQuery) {
      IsSubsequenceRefl(restaurants);
    } else {
      FilterIsSubsequence(restaurants, l => ListingMatches(l, Lower(searchQuery)));
    }
  }

  /** Upper- and lower-case spellings of a query show the same list. */
  lemma SearchListingsCaseInsensitive(restaurants: seq<Listing>, q1: string, q2: string)
    requires Lower(q1) == Lower(q2)
    ensures SearchListings(restaurants, q1) == SearchListings(restaurants, q2)
  {
    LowerKeepsBlank(q1);
    LowerKeepsBlank(q2);
  }

  /** The list after the load: replaced only by a non-empty fetch. */
  function AfterLoad(current: seq<Listing>, fetched: Result<seq<RestaurantRow>, string>): seq<Listing>
  {
    if fetched.Ok? && |fetched.value| > 0 then ToListings(fetched.value) else current
  }

  /** A failed or empty fetch keeps the list, a non-empty one replaces it,
      and a non-empty list never becomes empty. */
  lemma AfterLoadSpec(current: seq<Listing>, fetched: Result<seq<RestaurantRow>, string>)
    ensures fetched.Err? ==> AfterLoad(current, fetched) == current
    ensures fetched.Ok? && fetched.value == [] ==> AfterLoad(current, fetched) == current
    ensures fetched.Ok? && fetched.value != [] ==>
      AfterLoad(current, fetched) == ToListings(fetched.value)
    ensures |current| > 0 ==> |AfterLoad(current, fetched)| > 0
  {
  }

  /** The picker's state. The list is never empty, and since the search
      effect runs after every change of the query or the list, `filtered`
      always equals the search of the list (an explicit postcondition of
      each method, and a precondition of those that rely on it). */
  class Selector {
    var isOpen: bool
    var searchQuery: string
    var restaurants: seq<Listing>
    var filtered: seq<Listing>
    var isLoading: bool

    ghost predicate Valid()
      reads this
    {
      |restaurants| > 0
    }

    constructor()
      ensures Valid() && filtered == SearchListings(restaurants, searchQuery)
      ensures !isOpen && searchQuery == "" && isLoading
      ensures restaurants == Fallback && filtered == Fallback
    {
      isOpen := false;
      searchQuery := "";
      restaurants := Fallback;
      filtered := Fallback;
      isLoading := true;
    }

    /** `loadRestaurants`: a non-empty fetch replaces both lists with the
        transformed rows; anything else keeps them. Loading ends either way. */
    method LoadRestaurants(fetched: Result<seq<RestaurantRow>, string>) returns (replaced: bool)
      requires Valid()
      modifies this
      ensures Valid()
      ensures replaced <==> fetched.Ok? && fetched.value != []
      ensures restaurants == AfterLoad(old(restaurants), fetched)
      ensures replaced ==> filtered == restaurants
      ensures !replaced ==> filtered == old(filtered)
      ensures searchQuery == old(searchQuery) && isOpen == old(isOpen) && !isLoading
    {
      replaced := false;
      if fetched.Ok? && |fetched.value| > 0 {
        var transformed := ToListings(fetched.value);
        restaurants := transformed;
        filtered := transformed;
        replaced := true;
      }
      isLoading := false;
    }

    /** The search effect: the shown list is the search of the list. */
    method ApplySearch()
      requires Valid()
      modifies `filtered
      ensures Valid() && filtered == SearchListings(restaurants, searchQuery)
    {
      filtered := SearchListings(restaurants, searchQuery);
    }

    /** Loading, then the search effect. The source re-runs the effect only
        when the list changed; when it did not, `filtered` already holds its
        search, so running it here as well leaves the same state. */
    method Load(fetched: Result<seq<RestaurantRow>, string>)
      requires Valid()
      modifies this
      ensures Valid() && filtered == SearchListings(restaurants, searchQuery)
      ensures restaurants == AfterLoad(old(restaurants), fetched)
      ensures searchQuery == old(searchQuery) && isOpen == old(isOpen) && !isLoading
    {
      var replaced := LoadRestaurants(fetched);
      ApplySearch();
    }

    /** Typing in the search box, followed by the search effect. */
    method SetSearchQuery(q: string)
      requires Valid() && filtered == SearchListings(restaurants, searchQuery)
      modifies this
      ensures Valid() && filtered == SearchListings(restaurants, searchQuery)
      ensures searchQuery == q && filtered == SearchListings(restaurants, q)
      ensures restaurants == old(restaurants) && isOpen == old(isOpen) && isLoading == old(isLoading)
    {
      var shown := SearchListings(restaurants, q);
      searchQuery := q;
      filtered := shown;
    }

    /** `handleRestaurantSelect`: hands the choice to the parent, closes the
        menu and clears the query, after which the whole list shows again. */
    method Select(restaurant: Listing) returns (chosen: Listing)
      requires Valid() && filtered == SearchListings(restaurants, searchQuery)
      modifies this
      ensures Valid() && filtered == SearchListings(restaurants, searchQuery)
      ensures chosen == restaurant
      ensures !isOpen && searchQuery == "" && filtered == restaurants
      ensures restaurants == old(restaurants) && isLoading == old(isLoading)
    {
      chosen := restaurant;
      isOpen := false;
      searchQuery := "";
      filtered := SearchListings(restaurants, searchQuery);
    }
  }
}
