/** The location catalog of the client: the entries loaded from the page data
    (waypoints named "Node..." dropped) and the AND-over-terms substring search
    that feeds the suggestion dropdowns (locationManager.js). */
module Catalog {
  import opened Collections
  import opened Text

  /** A selectable place: `{id, name, lat, lng}` as served by `/nodes`. */
  datatype Location = Location(id: int, name: string, lat: real, lng: real)

  /** The `{selectedStart, selectedEnd}` pair the selection store returns. */
  datatype Selections = Selections(selectedStart: Option<Location>, selectedEnd: Option<Location>)

  /** At most this many suggestions are returned by a search. */
  const MaxSuggestions: nat := 10

  /** Internal routing waypoints carry a name starting with "Node". */
  predicate IsWaypoint(loc: Location) {
    StartsWith(loc.name, "Node")
  }

  /** The catalog kept by loadLocations: the page data without waypoints. */
  function Selectable(data: seq<Location>): seq<Location>
  {
    Filter(data, (l: Location) => !IsWaypoint(l))
  }

  /** loadLocations keeps exactly the entries whose name does not start with
      "Node", in their original order. */
  lemma LoadKeepsNonWaypointsInOrder(data: seq<Location>)
    ensures forall x :: x in Selectable(data) <==> x in data && !IsWaypoint(x)
    ensures IsSubsequence(Selectable(data), data)
  {
    forall x | x in data && !IsWaypoint(x) ensures x in Selectable(data) {
      FilterComplete(data, (l: Location) => !IsWaypoint(l), x);
    }
    FilterIsSubsequence(data, (l: Location) => !IsWaypoint(l));
  }

  /** Every search term occurs in the lower-cased name. */
  predicate MatchesAll(loc: Location, terms: seq<string>) {
    forall t :: t in terms ==> Contains(Lower(loc.name), t)
  }

  /** A query that selects nothing: missing, empty or only white space. */
  predicate IsBlankQuery(query: string) {
    query == "" || JsTrim(query) == ""
  }

  /** The catalog entries matching every term of the query, in catalog order. */
  function Matching(locs: seq<Location>, query: string): seq<Location>
  {
    Filter(locs, (l: Location) => MatchesAll(l, Terms(query)))
  }

  /** filterLocations: a blank query gives the first ten entries; any other
      query gives the first ten entries that contain every term. */
  function FilterLocations(locs: seq<Location>, query: string): (r: seq<Location>)
    ensures |r| <= MaxSuggestions
    ensures forall x :: x in r ==> x in locs
    ensures !IsBlankQuery(query) ==> forall x :: x in r ==> MatchesAll(x, Terms(query))
  {
    if IsBlankQuery(query) then Take(locs, MaxSuggestions)
    else Take(Matching(locs, query), MaxSuggestions)
  }

  /** A blank query lists the catalog from its start, unfiltered. */
  lemma BlankQueryListsCatalogHead(locs: seq<Location>, query: string)
    requires IsBlankQuery(query)
    ensures |FilterLocations(locs, query)| == if |locs| < MaxSuggestions then |locs| else MaxSuggestions
    ensures forall i :: 0 <= i < |FilterLocations(locs, query)| ==> FilterLocations(locs, query)[i] == locs[i]
  {
  }

  /** A matching entry preceded by fewer than ten matching entries is always
      among the results: the results are the FIRST matches. */
  lemma FilterReturnsFirstMatches(locs: seq<Location>, query: string, j: int)
    requires !IsBlankQuery(query)
    requires 0 <= j < |locs| && MatchesAll(locs[j], Terms(query))
    requires |Matching(locs[..j], query)| < MaxSuggestions
    ensures locs[j] in FilterLocations(locs, query)
  {
    var p := (l: Location) => MatchesAll(l, Terms(query));
    FilterPosition(locs, p, j);
    var k := |Matching(locs[..j], query)|;
    assert FilterLocations(locs, query)[k] == locs[j];
  }

  /** An element that passes the test sits in the filtered sequence right
      after the passing elements before it. */
  lemma FilterPosition<T>(s: seq<T>, p: T -> bool, j: int)
    requires 0 <= j < |s| && p(s[j])
    ensures |Filter(s[..j], p)| < |Filter(s, p)| && Filter(s, p)[|Filter(s[..j], p)|] == s[j]
  {
    assert s == s[..j] + [s[j]] + s[j + 1..];
    FilterAppend(s[..j] + [s[j]], s[j + 1..], p);
    FilterAppend(s[..j], [s[j]], p);
    assert Filter([s[j]], p) == [s[j]] + Filter([s[j]][1..], p);
  }

  /** The results keep catalog order: they are a subsequence of the catalog. */
  lemma FilterKeepsCatalogOrder(locs: seq<Location>, query: string)
    ensures IsSubsequence(FilterLocations(locs, query), locs)
  {
    if IsBlankQuery(query) {
      SubsequenceReflexive(locs);
      PrefixIsSubsequence(locs, locs, MaxSuggestions);
    } else {
      FilterIsSubsequence(locs, (l: Location) => MatchesAll(l, Terms(query)));
      PrefixIsSubsequence(Matching(locs, query), locs, MaxSuggestions);
    }
  }

  lemma {:induction false} SubsequenceReflexive<T>(a: seq<T>)
    ensures IsSubsequence(a, a)
  {
    if a != [] {
      SubsequenceReflexive(a[1..]);
    }
  }

  /** A prefix of a subsequence is a subsequence. */
  lemma {:induction false} PrefixIsSubsequence<T>(a: seq<T>, b: seq<T>, n: nat)
    requires IsSubsequence(a, b)
    ensures IsSubsequence(Take(a, n), b)
    decreases |b|
  {
    var t := Take(a, n);
    if t != [] {
      assert b != [];
      if a[0] == b[0] && IsSubsequence(a[1..], b[1..]) {
        PrefixIsSubsequence(a[1..], b[1..], n - 1);
        assert Take(a[1..], n - 1) == t[1..];
      } else {
        PrefixIsSubsequence(a, b[1..], n);
      }
    }
  }
}
