/** Grouping converted order books by venue: list search in one SDK, nested insertion-ordered maps in the other. */
module Books {
  import opened Chain
  import opened Prices

  /** A book whose ladders are already converted: `bids` sell token1 for token2, `asks` the reverse. */
  datatype Book = Book(venue: Address, token1: Address, token2: Address, bids: seq<Level>, asks: seq<Level>)

  datatype Listing = Listing(tokenIn: Address, tokenOut: Address, ladder: seq<Level>)

  datatype Venue = Venue(venue: Address, pairs: seq<Listing>)

  predicate Lists(pairs: seq<Listing>, a: Address, b: Address) {
    exists i :: 0 <= i < |pairs| && pairs[i].tokenIn == a && pairs[i].tokenOut == b
  }

  /** One side of a book: kept if it has levels and its direction is not listed yet. */
  function AddSide(pairs: seq<Listing>, a: Address, b: Address, ladder: seq<Level>): seq<Listing> {
    if |ladder| > 0 && !Lists(pairs, a, b) then pairs + [Listing(a, b, ladder)] else pairs
  }

  function AddBoth(pairs: seq<Listing>, b: Book): seq<Listing> {
    AddSide(AddSide(pairs, b.token1, b.token2, b.bids), b.token2, b.token1, b.asks)
  }

  function Position(vs: seq<Venue>, venue: Address): (r: Option<nat>)
    ensures r.Some? ==> r.value < |vs| && vs[r.value].venue == venue
    ensures r.Some? ==> forall j :: 0 <= j < r.value ==> vs[j].venue != venue
    ensures r.None? ==> forall j :: 0 <= j < |vs| ==> vs[j].venue != venue
  {
    if |vs| == 0 then None
    else if vs[0].venue == venue then Some(0)
    else match Position(vs[1..], venue)
         case None => None
         case Some(i) => Some(i + 1)
  }

  function AddBook(vs: seq<Venue>, b: Book): seq<Venue> {
    match Position(vs, b.venue)
    case Some(i) => vs[i := Venue(b.venue, AddBoth(vs[i].pairs, b))]
    case None => vs + [Venue(b.venue, AddBoth([], b))]
  }

  function Grouped(books: seq<Book>): seq<Venue> {
    if |books| == 0 then [] else AddBook(Grouped(books[..|books| - 1]), books[|books| - 1])
  }

  // ----- What grouping means -----

  /** Each value once, in order of first appearance. */
  function FirstSeen(s: seq<Address>): seq<Address> {
    if |s| == 0 then []
    else
      var front := FirstSeen(s[..|s| - 1]);
      if s[|s| - 1] in front then front else front + [s[|s| - 1]]
  }

  function VenuesOf(books: seq<Book>): (r: seq<Address>)
    ensures |r| == |books|
  {
    if |books| == 0 then [] else VenuesOf(books[..|books| - 1]) + [books[|books| - 1].venue]
  }

  function Names(vs: seq<Venue>): seq<Address> { seq(|vs|, i requires 0 <= i < |vs| => vs[i].venue) }

  /** The first ladder with levels that a book of `venue` has in this direction (its bids before its asks). */
  function FirstSide(books: seq<Book>, venue: Address, a: Address, b: Address): Option<seq<Level>> {
    if |books| == 0 then None
    else
      var last, earlier := books[|books| - 1], FirstSide(books[..|books| - 1], venue, a, b);
      if earlier.Some? || last.venue != venue then earlier
      else if |last.bids| > 0 && (last.token1, last.token2) == (a, b) then Some(last.bids)
      else if |last.asks| > 0 && (last.token2, last.token1) == (a, b) then Some(last.asks)
      else None
  }

  function Lookup(pairs: seq<Listing>, a: Address, b: Address): Option<seq<Level>> {
    if |pairs| == 0 then None
    else if pairs[|pairs| - 1].tokenIn == a && pairs[|pairs| - 1].tokenOut == b then Some(pairs[|pairs| - 1].ladder)
    else Lookup(pairs[..|pairs| - 1], a, b)
  }

  ghost predicate DistinctPairs(pairs: seq<Listing>) {
    forall i, j :: 0 <= i < j < |pairs| ==>
      (pairs[i].tokenIn, pairs[i].tokenOut) != (pairs[j].tokenIn, pairs[j].tokenOut)
  }

  lemma {:induction false} LookupFindsListed(pairs: seq<Listing>, a: Address, b: Address)
    ensures Lookup(pairs, a, b).Some? <==> Lists(pairs, a, b)
  {
    if |pairs| > 0 {
      LookupFindsListed(pairs[..|pairs| - 1], a, b);
      assert Lists(pairs[..|pairs| - 1], a, b) ==> Lists(pairs, a, b);
    }
  }

  lemma AddSideLookup(pairs: seq<Listing>, a: Address, b: Address, ladder: seq<Level>, c: Address, d: Address)
    requires DistinctPairs(pairs)
    ensures DistinctPairs(AddSide(pairs, a, b, ladder))
    ensures Lookup(AddSide(pairs, a, b, ladder), c, d) ==
      if Lookup(pairs, c, d).None? && (a, b) == (c, d) && |ladder| > 0 then Some(ladder) else Lookup(pairs, c, d)
  {
    LookupFindsListed(pairs, a, b);
    assert (pairs + [Listing(a, b, ladder)])[..|pairs|] == pairs;
  }

  lemma AddBothLookup(pairs: seq<Listing>, b: Book, c: Address, d: Address)
    requires DistinctPairs(pairs)
    ensures DistinctPairs(AddBoth(pairs, b))
    ensures Lookup(AddBoth(pairs, b), c, d) ==
      if Lookup(pairs, c, d).Some? then Lookup(pairs, c, d)
      else if |b.bids| > 0 && (b.token1, b.token2) == (c, d) then Some(b.bids)
      else if |b.asks| > 0 && (b.token2, b.token1) == (c, d) then Some(b.asks)
      else None
  {
    AddSideLookup(pairs, b.token1, b.token2, b.bids, c, d);
    AddSideLookup(AddSide(pairs, b.token1, b.token2, b.bids), b.token2, b.token1, b.asks, c, d);
  }

  /** What a venue lists in the grouping; nothing if it is not there. */
  function Listed(vs: seq<Venue>, venue: Address): seq<Listing> {
    match Position(vs, venue)
    case Some(i) => vs[i].pairs
    case None => []
  }

  lemma AddBookListed(vs: seq<Venue>, b: Book, venue: Address)
    ensures Listed(AddBook(vs, b), venue) ==
      if venue == b.venue then AddBoth(Listed(vs, venue), b) else Listed(vs, venue)
  {
    var ws := AddBook(vs, b);
    var p, q := Position(vs, venue), Position(ws, venue);
    assert forall j :: 0 <= j < |vs| ==> ws[j].venue == vs[j].venue;
    assert |ws| > |vs| ==> ws[|vs|].venue == b.venue;
    if p.Some? {
      assert ws[p.value].venue == venue;
    }
    if q.Some? && q.value < |vs| {
      assert vs[q.value].venue == venue;
    }
  }

  lemma AddBookNames(vs: seq<Venue>, b: Book)
    ensures Names(AddBook(vs, b)) == if b.venue in Names(vs) then Names(vs) else Names(vs) + [b.venue]
  {
    var p := Position(vs, b.venue);
    if p.Some? {
      assert Names(vs)[p.value] == b.venue;
    }
  }

  /** The grouping names each venue once, in order of first appearance. */
  lemma {:induction false} VenuesInFirstOrder(books: seq<Book>)
    ensures Names(Grouped(books)) == FirstSeen(VenuesOf(books))
  {
    if |books| > 0 {
      var front, last := books[..|books| - 1], books[|books| - 1];
      VenuesInFirstOrder(front);
      AddBookNames(Grouped(front), last);
      assert VenuesOf(books)[..|books| - 1] == VenuesOf(front);
    }
  }

  /** Under each venue the grouping lists each direction at most once: with the ladder of the first book that has
      levels in it, or not at all if none has. */
  lemma {:induction false} FirstLadderWins(books: seq<Book>, venue: Address, a: Address, b: Address)
    ensures DistinctPairs(Listed(Grouped(books), venue))
    ensures Lookup(Listed(Grouped(books), venue), a, b) == FirstSide(books, venue, a, b)
  {
    if |books| > 0 {
      var front, last := books[..|books| - 1], books[|books| - 1];
      FirstLadderWins(front, venue, a, b);
      AddBookListed(Grouped(front), last, venue);
      if venue == last.venue { AddBothLookup(Listed(Grouped(front), venue), last, a, b); }
    }
  }

  // ----- The two implementations -----

  /** Rust's `parse_books`: positions are searched for, vectors grown in place. */
  method GroupByListSearch(books: seq<Book>) returns (pamms: seq<Venue>)
    ensures pamms == Grouped(books)
  {
    pamms := [];
    var i := 0;
    while i < |books|
      invariant 0 <= i <= |books| && pamms == Grouped(books[..i])
    {
      assert books[..i + 1][..i] == books[..i];
      var book := books[i];
      var index := FindVenue(pamms, book.venue);
      if index == |pamms| { pamms := pamms + [Venue(book.venue, [])]; }
      var pairs := PushSide(pamms[index].pairs, book.token1, book.token2, book.bids);
      pairs := PushSide(pairs, book.token2, book.token1, book.asks);
      pamms := pamms[index := Venue(book.venue, pairs)];
      i := i + 1;
    }
    assert books[..i] == books;
  }

  method FindVenue(pamms: seq<Venue>, venue: Address) returns (index: nat)
    ensures match Position(pamms, venue)
            case Some(i) => index == i
            case None => index == |pamms|
  {
    index := 0;
    while index < |pamms|
      invariant 0 <= index <= |pamms|
      invariant forall j :: 0 <= j < index ==> pamms[j].venue != venue
    {
      if pamms[index].venue == venue { return; }
      index := index + 1;
    }
  }

  method PushSide(pairs: seq<Listing>, a: Address, b: Address, ladder: seq<Level>) returns (r: seq<Listing>)
    ensures r == AddSide(pairs, a, b, ladder)
  {
    var present := false;
    var i := 0;
    while i < |pairs| && !present
      invariant 0 <= i <= |pairs| && (present ==> Lists(pairs, a, b))
      invariant !present ==> forall j :: 0 <= j < i ==> !(pairs[j].tokenIn == a && pairs[j].tokenOut == b)
    {
      present := pairs[i].tokenIn == a && pairs[i].tokenOut == b;
      i := i + 1;
    }
    r := if |ladder| > 0 && !present then pairs + [Listing(a, b, ladder)] else pairs;
  }

  /** A JavaScript `Map`: lookups by key, iteration in insertion order. */
  datatype InsertionMap<K(!new), V> = InsertionMap(order: seq<K>, entries: map<K, V>) {
    ghost predicate Valid() {
      && (forall k :: k in entries <==> k in order)
      && (forall i, j :: 0 <= i < j < |order| ==> order[i] != order[j])
    }

    function Set(k: K, v: V): (r: InsertionMap<K, V>)
      requires Valid()
      ensures r.Valid()
    {
      InsertionMap(if k in entries then order else order + [k], entries[k := v])
    }
  }

  type PairMap = InsertionMap<(Address, Address), Listing>

  /** The values of a pair map in order. */
  function Values(m: PairMap): (r: seq<Listing>)
    requires m.Valid()
    ensures |r| == |m.order|
  {
    seq(|m.order|, i requires 0 <= i < |m.order| => m.entries[m.order[i]])
  }

  /** Keys are the directions of the listings they hold. */
  ghost predicate Keyed(m: PairMap) {
    m.Valid() && forall k :: k in m.entries ==> k == (m.entries[k].tokenIn, m.entries[k].tokenOut)
  }

  ghost predicate AllKeyed(m: InsertionMap<Address, PairMap>) {
    m.Valid() && forall v :: v in m.entries ==> Keyed(m.entries[v])
  }

  function Entry(m: InsertionMap<Address, PairMap>, i: nat): Venue
    requires AllKeyed(m) && i < |m.order|
  {
    Venue(m.order[i], Values(m.entries[m.order[i]]))
  }

  function ToVenues(m: InsertionMap<Address, PairMap>): (r: seq<Venue>)
    requires AllKeyed(m)
    ensures |r| == |m.order|
  {
    seq(|m.order|, i requires 0 <= i < |m.order| => Entry(m, i))
  }

  method SetSide(m: PairMap, a: Address, b: Address, ladder: seq<Level>) returns (r: PairMap)
    requires Keyed(m)
    ensures Keyed(r) && Values(r) == AddSide(Values(m), a, b, ladder)
  {
    r := m;
    assert Lists(Values(m), a, b) <==> (a, b) in m.entries by {
      if (a, b) in m.entries {
        var i :| 0 <= i < |m.order| && m.order[i] == (a, b);
        assert Values(m)[i] == m.entries[(a, b)];
      }
      if Lists(Values(m), a, b) {
        var i :| 0 <= i < |Values(m)| && Values(m)[i].tokenIn == a && Values(m)[i].tokenOut == b;
        assert m.order[i] in m.entries;
      }
    }
    if |ladder| > 0 && (a, b) !in m.entries {
      r := m.Set((a, b), Listing(a, b, ladder));
      assert forall i :: 0 <= i < |m.order| ==>
        m.order[i] in m.entries && r.entries[m.order[i]] == m.entries[m.order[i]];
    }
  }

  /** TypeScript's `parseBooks`: nested maps, spread into arrays at the end. Same answer as the list search. */
  method GroupByMaps(books: seq<Book>) returns (pamms: seq<Venue>)
    ensures pamms == Grouped(books)
  {
    var byPamm: InsertionMap<Address, PairMap> := InsertionMap([], map[]);
    var i := 0;
    while i < |books|
      invariant 0 <= i <= |books| && AllKeyed(byPamm) && ToVenues(byPamm) == Grouped(books[..i])
    {
      assert books[..i + 1][..i] == books[..i];
      var book := books[i];
      var pairs: PairMap := InsertionMap([], map[]);
      if book.venue in byPamm.entries { pairs := byPamm.entries[book.venue]; }
      ghost var before := Values(pairs);
      pairs := SetSide(pairs, book.token1, book.token2, book.bids);
      pairs := SetSide(pairs, book.token2, book.token1, book.asks);
      SetVenue(byPamm, book, before, pairs);
      byPamm := byPamm.Set(book.venue, pairs);
      i := i + 1;
    }
    assert books[..i] == books;
    pamms := ToVenues(byPamm);
  }

  lemma SetVenue(m: InsertionMap<Address, PairMap>, b: Book, before: seq<Listing>, pairs: PairMap)
    requires AllKeyed(m) && Keyed(pairs) && Values(pairs) == AddBoth(before, b)
    requires before == if b.venue in m.entries then Values(m.entries[b.venue]) else []
    ensures AllKeyed(m.Set(b.venue, pairs))
    ensures ToVenues(m.Set(b.venue, pairs)) == AddBook(ToVenues(m), b)
  {
    var vs, r := ToVenues(m), m.Set(b.venue, pairs);
    var p := Position(vs, b.venue);
    assert forall j :: 0 <= j < |m.order| ==> vs[j].venue == m.order[j];
    if b.venue in m.entries {
      assert p.Some? by {
        var i :| 0 <= i < |m.order| && m.order[i] == b.venue;
        assert vs[i].venue == b.venue;
      }
      SetKnownVenue(m, b, pairs, p.value);
    } else {
      assert forall j :: 0 <= j < |m.order| ==> m.order[j] in m.entries;
      SetNewVenue(m, b, pairs);
    }
  }

  lemma SetKnownVenue(m: InsertionMap<Address, PairMap>, b: Book, pairs: PairMap, i: nat)
    requires AllKeyed(m) && Keyed(pairs) && i < |m.order| && m.order[i] == b.venue && b.venue in m.entries
    ensures AllKeyed(m.Set(b.venue, pairs))
    ensures ToVenues(m.Set(b.venue, pairs)) == ToVenues(m)[i := Venue(b.venue, Values(pairs))]
  {
    var r := m.Set(b.venue, pairs);
    forall j | 0 <= j < |m.order|
      ensures Entry(r, j) == if j == i then Venue(b.venue, Values(pairs)) else Entry(m, j)
    {
      assert m.order[j] in m.entries;
    }
  }

  lemma SetNewVenue(m: InsertionMap<Address, PairMap>, b: Book, pairs: PairMap)
    requires AllKeyed(m) && Keyed(pairs) && b.venue !in m.entries
    ensures AllKeyed(m.Set(b.venue, pairs))
    ensures ToVenues(m.Set(b.venue, pairs)) == ToVenues(m) + [Venue(b.venue, Values(pairs))]
  {
    var r := m.Set(b.venue, pairs);
    forall j | 0 <= j < |m.order|
      ensures Entry(r, j) == Entry(m, j)
    {
      assert m.order[j] in m.entries;
    }
  }
}
