/** The workshops page: a catalogue of six workshops, each offered in person,
    virtually or both, and a three-way filter that chooses which of them are
    listed. */
module Workshops {

  /** The filter's three values. */
  datatype Format = All | InPerson | Virtual

  /** The part of a catalogue entry the filter looks at; the other fields
      (prices, durations, copy) are only displayed. */
  datatype Workshop = Workshop(id: string, title: string, format: seq<string>)

  const Catalog: seq<Workshop> := [
    Workshop("film-scoring", "Composing for Film & TV", ["In-Person", "Virtual"]),
    Workshop("string-arranging", "String Arranging for Producers", ["Virtual"]),
    Workshop("songwriting", "Songwriting Intensive", ["In-Person"]),
    Workshop("music-business", "Music Business & Licensing 101", ["Virtual"]),
    Workshop("performance", "Performance & Stage Presence", ["In-Person"]),
    Workshop("recording", "Recording & Production Fundamentals", ["In-Person", "Virtual"])
  ]

  /** Whether the filter lets a workshop through. "All" keeps every entry, an
      entry offered both ways passes every filter, and one with no format
      passes only "All". */
  function Keeps(f: Format, ws: Workshop): (b: bool)
    ensures f == All ==> b
    ensures "In-Person" in ws.format && "Virtual" in ws.format ==> b
    ensures ws.format == [] ==> (b <==> f == All)
  {
    match f
    case All => true
    case InPerson => "In-Person" in ws.format
    case Virtual => "Virtual" in ws.format
  }

  /** The listed workshops: those the filter keeps, in catalogue order. */
  function Filtered(f: Format, xs: seq<Workshop>): (r: seq<Workshop>)
    ensures |r| <= |xs|
  {
    if xs == [] then []
    else (if Keeps(f, xs[0]) then [xs[0]] else []) + Filtered(f, xs[1..])
  }

  /** A workshop is listed exactly when it is in the list and the filter keeps
      it. */
  lemma {:induction false} FilteredMembers(f: Format, xs: seq<Workshop>)
    ensures forall w :: w in Filtered(f, xs) <==> w in xs && Keeps(f, w)
  {
    if xs != [] {
      FilteredMembers(f, xs[1..]);
      assert xs == [xs[0]] + xs[1..];
    }
  }

  /** `r` is `xs` with some entries dropped and the rest in the same order. */
  predicate IsSubsequence<T(==)>(r: seq<T>, xs: seq<T>)
    decreases |xs|
  {
    if r == [] then true
    else if xs == [] then false
    else (r[0] == xs[0] && IsSubsequence(r[1..], xs[1..])) || IsSubsequence(r, xs[1..])
  }

  /** Filtering only drops entries; it never reorders them. */
  lemma {:induction false} FilteredIsSubsequence(f: Format, xs: seq<Workshop>)
    ensures IsSubsequence(Filtered(f, xs), xs)
  {
    if xs != [] {
      FilteredIsSubsequence(f, xs[1..]);
      if Keeps(f, xs[0]) {
        assert Filtered(f, xs) == [xs[0]] + Filtered(f, xs[1..]);
      } else {
        assert Filtered(f, xs) == Filtered(f, xs[1..]);
        SubsequenceOfTail(Filtered(f, xs[1..]), xs);
      }
    }
  }

  lemma SubsequenceOfTail<T>(r: seq<T>, xs: seq<T>)
    requires xs != [] && IsSubsequence(r, xs[1..])
    ensures IsSubsequence(r, xs)
  {
  }

  /** Filtering a concatenation filters each part: the relative order of the
      listed workshops is their order in the catalogue. */
  lemma {:induction false} FilteredAppend(f: Format, xs: seq<Workshop>, ys: seq<Workshop>)
    ensures Filtered(f, xs + ys) == Filtered(f, xs) + Filtered(f, ys)
  {
    if xs != [] {
      assert (xs + ys)[1..] == xs[1..] + ys;
      FilteredAppend(f, xs[1..], ys);
    } else {
      assert xs + ys == ys;
    }
  }

  /** "All Workshops" lists the whole catalogue in its own order. */
  lemma {:induction false} FilteredAll(xs: seq<Workshop>)
    ensures Filtered(All, xs) == xs
  {
    if xs != [] {
      FilteredAll(xs[1..]);
      assert [xs[0]] + xs[1..] == xs;
    }
  }

  /** Applying the same filter to the listed workshops changes nothing. */
  lemma {:induction false} FilteredIdempotent(f: Format, xs: seq<Workshop>)
    ensures Filtered(f, Filtered(f, xs)) == Filtered(f, xs)
  {
    if xs != [] {
      FilteredIdempotent(f, xs[1..]);
      var rest := Filtered(f, xs[1..]);
      if Keeps(f, xs[0]) {
        var r := [xs[0]] + rest;
        assert Filtered(f, xs) == r;
        assert r[0] == xs[0] && r[1..] == rest;
        assert Filtered(f, r) == [xs[0]] + Filtered(f, rest);
      } else {
        assert Filtered(f, xs) == rest;
      }
    }
  }

  /** Whether each catalogue entry is held in person and whether virtually. */
  lemma CatalogFormats()
    ensures Keeps(InPerson, Catalog[0]) && Keeps(Virtual, Catalog[0])
    ensures !Keeps(InPerson, Catalog[1]) && Keeps(Virtual, Catalog[1])
    ensures Keeps(InPerson, Catalog[2]) && !Keeps(Virtual, Catalog[2])
    ensures !Keeps(InPerson, Catalog[3]) && Keeps(Virtual, Catalog[3])
    ensures Keeps(InPerson, Catalog[4]) && !Keeps(Virtual, Catalog[4])
    ensures Keeps(InPerson, Catalog[5]) && Keeps(Virtual, Catalog[5])
  {
  }

  /** In the shipped catalogue four workshops are held in person. */
  lemma CatalogInPerson()
    ensures Filtered(InPerson, Catalog) == [Catalog[0], Catalog[2], Catalog[4], Catalog[5]]
  {
  }

  /** In the shipped catalogue four workshops are held virtually. */
  lemma CatalogVirtual()
    ensures Filtered(Virtual, Catalog) == [Catalog[0], Catalog[1], Catalog[3], Catalog[5]]
  {
  }

  /** Every workshop is offered in person, virtually or both, so the two
      filters together list the whole catalogue. */
  lemma CatalogCovered()
    ensures forall w :: w in Catalog ==> w in Filtered(InPerson, Catalog) || w in Filtered(Virtual, Catalog)
  {
  }

  /** The filter buttons, in the order they are drawn, with their labels. */
  const Buttons: seq<(Format, string)> := [
    (All, "All Workshops"),
    (InPerson, "In-Person (LA)"),
    (Virtual, "Virtual")
  ]

  /** A button is drawn in its active style when its value is the filter. */
  predicate ButtonActive(value: Format, filter: Format) {
    value == filter
  }

  function ActiveButtons(filter: Format): set<int> {
    set i | 0 <= i < |Buttons| && ButtonActive(Buttons[i].0, filter)
  }

  function ButtonIndex(f: Format): int {
    match f
    case All => 0
    case InPerson => 1
    case Virtual => 2
  }

  /** Exactly one filter button is active: the one for the current filter. */
  lemma OneActiveButton(filter: Format)
    ensures ActiveButtons(filter) == {ButtonIndex(filter)}
  {
  }
}
