/** highlightMatch of autocompleteManager.js: for each search term in turn,
    every case-insensitive occurrence of the term in the caption, scanned left
    to right without overlaps, is wrapped in a highlight span. Each term is
    applied to the caption as the previous terms left it, markup included.
    Terms are matched literally: the model does not give regular-expression
    characters in a term their special meaning. */
module Highlight {
  import opened Text

  const Open: string := "<span class=\"highlight\">"
  const Close: string := "</span>"

  /** The (already lower-case) term matches `s` at its start, ignoring case. */
  predicate MatchesAtStart(s: string, term: string) {
    |term| <= |s| && Lower(s[..|term|]) == term
  }

  /** A caption cut into the characters left alone and the matched stretches. */
  datatype Piece = Plain(c: char) | Hit(text: string)

  /** The scan of a global regular-expression replace: at each position a
      match is taken whole and the scan resumes after it; otherwise one
      character is kept and the scan moves on. */
  function Pieces(s: string, term: string): (r: seq<Piece>)
    requires |term| > 0
    ensures forall p :: p in r && p.Hit? ==> Lower(p.text) == term
    decreases |s|
  {
    if s == [] then []
    else if MatchesAtStart(s, term) then [Hit(s[..|term|])] + Pieces(s[|term|..], term)
    else [Plain(s[0])] + Pieces(s[1..], term)
  }

  /** The characters the pieces stand for. */
  function Original(pieces: seq<Piece>): string
  {
    if pieces == [] then ""
    else (match pieces[0] case Plain(c) => [c] case Hit(t) => t) + Original(pieces[1..])
  }

  /** The pieces as HTML: each matched stretch between Open and Close. */
  function Markup(pieces: seq<Piece>): string
  {
    if pieces == [] then ""
    else (match pieces[0] case Plain(c) => [c] case Hit(t) => Open + t + Close) + Markup(pieces[1..])
  }

  /** `text.replace(new RegExp('(' + term + ')', 'gi'), Open + '$1' + Close)`. */
  function HighlightTerm(s: string, term: string): string
    requires |term| > 0
  {
    Markup(Pieces(s, term))
  }

  /** Removing the markup gives back the caption: the scan keeps every character. */
  lemma {:induction false} PiecesKeepText(s: string, term: string)
    requires |term| > 0
    ensures Original(Pieces(s, term)) == s
    decreases |s|
  {
    if s != [] {
      if MatchesAtStart(s, term) {
        PiecesKeepText(s[|term|..], term);
        assert s == s[..|term|] + s[|term|..];
      } else {
        PiecesKeepText(s[1..], term);
        assert s == [s[0]] + s[1..];
      }
    }
  }

  lemma LowerSlice(s: string, a: int, b: int)
    requires 0 <= a <= b <= |s|
    ensures Lower(s[a..b]) == Lower(s)[a..b]
  {
  }

  /** Some piece is a matched stretch. */
  predicate HasHit(pieces: seq<Piece>) {
    exists k :: 0 <= k < |pieces| && pieces[k].Hit?
  }

  /** The term occurs somewhere in the lower-cased caption. */
  ghost predicate Occurs(s: string, term: string) {
    exists i :: OccursAt(Lower(s), term, i)
  }

  /** An occurrence after the first character is an occurrence in the tail. */
  lemma OccursShift(s: string, term: string, i: int)
    requires |s| > 0 && 1 <= i
    ensures OccursAt(Lower(s), term, i) <==> OccursAt(Lower(s[1..]), term, i - 1)
  {
    if 0 <= i - 1 <= |s| - 1 - |term| {
      LowerSlice(s, 1, |s|);
      assert Lower(s)[i..i + |term|] == Lower(s[1..])[i - 1..i - 1 + |term|];
    }
  }

  /** A match at the start is an occurrence at position 0. */
  lemma OccursAtStart(s: string, term: string)
    ensures MatchesAtStart(s, term) <==> OccursAt(Lower(s), term, 0)
  {
    if |term| <= |s| {
      LowerSlice(s, 0, |term|);
    }
  }

  lemma {:induction false} HitImpliesOccurs(s: string, term: string)
    requires |term| > 0 && HasHit(Pieces(s, term))
    ensures Occurs(s, term)
    decreases |s|
  {
    OccursAtStart(s, term);
    if !MatchesAtStart(s, term) {
      var rest := Pieces(s[1..], term);
      assert Pieces(s, term) == [Plain(s[0])] + rest;
      var k :| 0 <= k < |Pieces(s, term)| && Pieces(s, term)[k].Hit?;
      assert rest[k - 1].Hit?;
      HitImpliesOccurs(s[1..], term);
      var i :| OccursAt(Lower(s[1..]), term, i);
      OccursShift(s, term, i + 1);
    }
  }

  lemma {:induction false} OccursImpliesHit(s: string, term: string, i: int)
    requires |term| > 0 && OccursAt(Lower(s), term, i)
    ensures HasHit(Pieces(s, term))
    decreases |s|
  {
    OccursAtStart(s, term);
    var r := Pieces(s, term);
    if MatchesAtStart(s, term) {
      assert r[0].Hit?;
    } else {
      OccursShift(s, term, i);
      OccursImpliesHit(s[1..], term, i - 1);
      var rest := Pieces(s[1..], term);
      assert r == [Plain(s[0])] + rest;
      var k :| 0 <= k < |rest| && rest[k].Hit?;
      assert r[k + 1].Hit?;
    }
  }

  /** The scan finds a match exactly when the term occurs somewhere in the
      lower-cased caption. */
  lemma HitIffOccurs(s: string, term: string)
    requires |term| > 0
    ensures HasHit(Pieces(s, term)) <==> Occurs(s, term)
  {
    if HasHit(Pieces(s, term)) {
      HitImpliesOccurs(s, term);
    }
    if Occurs(s, term) {
      var i :| OccursAt(Lower(s), term, i);
      OccursImpliesHit(s, term, i);
    }
  }

  /** Markup adds nothing to pieces without a match. */
  lemma {:induction false} MarkupOfPlain(pieces: seq<Piece>)
    requires !HasHit(pieces)
    ensures Markup(pieces) == Original(pieces)
  {
    if pieces != [] {
      MarkupOfPlain(pieces[1..]);
    }
  }

  /** A caption in which the term does not occur comes back unchanged. */
  lemma NoOccurrenceUnchanged(s: string, term: string)
    requires |term| > 0 && !Occurs(s, term)
    ensures HighlightTerm(s, term) == s
  {
    HitIffOccurs(s, term);
    MarkupOfPlain(Pieces(s, term));
    PiecesKeepText(s, term);
  }

  lemma {:induction false} OriginalAppend(a: seq<Piece>, b: seq<Piece>)
    ensures Original(a + b) == Original(a) + Original(b)
  {
    if a != [] {
      assert (a + b)[0] == a[0] && (a + b)[1..] == a[1..] + b;
      OriginalAppend(a[1..], b);
    } else {
      assert a + b == b;
    }
  }

  /** No match of the term begins at position `at` of `s`. */
  predicate NoMatchAt(s: string, term: string, at: int) {
    0 <= at <= |s| && !MatchesAtStart(s[at..], term)
  }

  /** What a global, case-insensitive replace finds: the pieces spell the
      caption, each matched stretch is the term, and no match begins at a
      character that was left alone. Together these say that every match
      found scanning left to right, without overlaps, is wrapped. */
  ghost predicate IsLeftmostScan(s: string, term: string, pieces: seq<Piece>) {
    && Original(pieces) == s
    && (forall k :: 0 <= k < |pieces| && pieces[k].Hit? ==> Lower(pieces[k].text) == term)
    && (forall k :: 0 <= k < |pieces| && pieces[k].Plain? ==> NoMatchAt(s, term, |Original(pieces[..k])|))
  }

  /** Dropping the first `head` characters moves a position back by `head`. */
  lemma NoMatchShift(s: string, term: string, head: nat, at: nat)
    requires head <= |s|
    ensures NoMatchAt(s, term, head + at) <==> NoMatchAt(s[head..], term, at)
  {
    if head + at <= |s| {
      assert s[head + at..] == s[head..][at..];
    }
  }

  /** The piece after the first stands for the characters after the first piece's. */
  lemma PrefixAfterFirst(pieces: seq<Piece>, k: nat)
    requires 0 <= k < |pieces|
    ensures |Original(pieces[..k + 1])| == |Original(pieces[..1])| + |Original(pieces[1..][..k])|
  {
    assert pieces[..k + 1] == pieces[..1] + pieces[1..][..k];
    OriginalAppend(pieces[..1], pieces[1..][..k]);
  }

  /** The pieces after a first piece that stands for `head` characters. */
  lemma ScanTail(s: string, term: string, pieces: seq<Piece>, head: nat)
    requires pieces != [] && Original(pieces) == s && head == |Original(pieces[..1])|
    requires forall k :: 0 <= k < |pieces| && pieces[k].Plain? ==> NoMatchAt(s, term, |Original(pieces[..k])|)
    ensures head <= |s| && Original(pieces[1..]) == s[head..]
    ensures forall k :: 0 <= k < |pieces| - 1 && pieces[1..][k].Plain? ==>
              NoMatchAt(s[head..], term, |Original(pieces[1..][..k])|)
  {
    assert pieces == pieces[..1] + pieces[1..];
    OriginalAppend(pieces[..1], pieces[1..]);
    forall k | 0 <= k < |pieces| - 1 && pieces[1..][k].Plain?
      ensures NoMatchAt(s[head..], term, |Original(pieces[1..][..k])|)
    {
      assert pieces[k + 1].Plain?;
      PrefixAfterFirst(pieces, k + 1 - 1);
      NoMatchShift(s, term, head, |Original(pieces[1..][..k])|);
    }
  }

  /** A scan of the rest of the caption, after a first piece that is a
      valid start, is a scan of the whole caption. */
  lemma ScanCons(s: string, term: string, first: Piece, rest: seq<Piece>, n: nat)
    requires n == |Original([first])| <= |s| && Original([first]) == s[..n]
    requires first.Plain? ==> NoMatchAt(s, term, 0)
    requires first.Hit? ==> Lower(first.text) == term
    requires IsLeftmostScan(s[n..], term, rest)
    ensures IsLeftmostScan(s, term, [first] + rest)
  {
    var r := [first] + rest;
    OriginalAppend([first], rest);
    assert s == s[..n] + s[n..];
    forall k | 0 <= k < |r| && r[k].Plain?
      ensures NoMatchAt(s, term, |Original(r[..k])|)
    {
      PlainAfterFirst(s, term, first, rest, n, k);
    }
  }

  /** The no-match condition of ScanCons for one piece. */
  lemma PlainAfterFirst(s: string, term: string, first: Piece, rest: seq<Piece>, n: nat, k: nat)
    requires n == |Original([first])| <= |s|
    requires first.Plain? ==> NoMatchAt(s, term, 0)
    requires forall k :: 0 <= k < |rest| && rest[k].Plain? ==> NoMatchAt(s[n..], term, |Original(rest[..k])|)
    requires k < |rest| + 1 && ([first] + rest)[k].Plain?
    ensures NoMatchAt(s, term, |Original(([first] + rest)[..k])|)
  {
    var r := [first] + rest;
    if k == 0 {
      assert r[..0] == [];
    } else {
      assert r[k] == rest[k - 1] && r[..1] == [first] && r[1..] == rest;
      PrefixAfterFirst(r, k - 1);
      NoMatchShift(s, term, n, |Original(rest[..k - 1])|);
    }
  }

  /** The scan above is such a scan. */
  lemma {:induction false} PiecesIsLeftmostScan(s: string, term: string)
    requires |term| > 0
    ensures IsLeftmostScan(s, term, Pieces(s, term))
    decreases |s|
  {
    if s != [] {
      var n := if MatchesAtStart(s, term) then |term| else 1;
      var first := if MatchesAtStart(s, term) then Hit(s[..|term|]) else Plain(s[0]);
      assert Original([first]) == s[..n];
      assert s[0..] == s;
      PiecesIsLeftmostScan(s[n..], term);
      ScanCons(s, term, first, Pieces(s[n..], term), n);
    }
  }

  /** There is only one such scan: any cutting of the caption with the three
      properties is the scan above, so highlighting one term wraps exactly
      the leftmost non-overlapping matches. */
  lemma {:induction false} LeftmostScanUnique(s: string, term: string, pieces: seq<Piece>)
    requires |term| > 0 && IsLeftmostScan(s, term, pieces)
    ensures pieces == Pieces(s, term)
    decreases |s|
  {
    if pieces != [] {
      var head := |Original(pieces[..1])|;
      ScanTail(s, term, pieces, head);
      assert Original(pieces[..1]) == match pieces[0] case Plain(c) => [c] case Hit(t) => t;
      assert pieces[..0] == [];
      assert IsLeftmostScan(s[head..], term, pieces[1..]) by {
        forall k | 0 <= k < |pieces| - 1 && pieces[1..][k].Hit?
          ensures Lower(pieces[1..][k].text) == term
        {
          assert pieces[1..][k] == pieces[k + 1];
        }
      }
      assert s == Original(pieces[..1]) + s[head..] by {
        assert pieces == pieces[..1] + pieces[1..];
        OriginalAppend(pieces[..1], pieces[1..]);
      }
      match pieces[0]
      case Plain(c) =>
        assert !MatchesAtStart(s, term);
        LeftmostScanUnique(s[1..], term, pieces[1..]);
      case Hit(t) =>
        assert s[..|term|] == t;
        assert MatchesAtStart(s, term);
        LeftmostScanUnique(s[|term|..], term, pieces[1..]);
    }
  }

  /** Highlighting one term wraps exactly the leftmost non-overlapping
      matches: its result is the markup of any cutting of the caption that
      has the properties of IsLeftmostScan. */
  lemma HighlightTermWrapsScan(s: string, term: string, pieces: seq<Piece>)
    requires |term| > 0 && IsLeftmostScan(s, term, pieces)
    ensures HighlightTerm(s, term) == Markup(pieces)
  {
    LeftmostScanUnique(s, term, pieces);
  }

  /** The terms applied one after the other, the first one first. */
  function HighlightAll(s: string, terms: seq<string>): string
    requires forall t :: t in terms ==> |t| > 0
  {
    if terms == [] then s
    else HighlightTerm(HighlightAll(s, terms[..|terms| - 1]), terms[|terms| - 1])
  }

  /** A caption in which no term occurs comes back unchanged. */
  lemma {:induction false} NoTermOccursUnchanged(s: string, terms: seq<string>)
    requires forall t :: t in terms ==> |t| > 0
    requires forall t :: t in terms ==> !Occurs(s, t)
    ensures HighlightAll(s, terms) == s
  {
    if terms != [] {
      var init := terms[..|terms| - 1];
      assert forall t :: t in init ==> t in terms;
      NoTermOccursUnchanged(s, init);
      NoOccurrenceUnchanged(s, terms[|terms| - 1]);
    }
  }

  /** One more term: the running result highlighted for it. */
  lemma HighlightStep(s: string, terms: seq<string>, i: int)
    requires forall t :: t in terms ==> |t| > 0
    requires 0 <= i < |terms|
    ensures forall t :: t in terms[..i] ==> |t| > 0
    ensures forall t :: t in terms[..i + 1] ==> |t| > 0
    ensures HighlightAll(s, terms[..i + 1]) == HighlightTerm(HighlightAll(s, terms[..i]), terms[i])
  {
    assert terms[..i + 1][..i] == terms[..i];
  }

  /** highlightMatch: an empty query leaves the caption alone; otherwise each
      term of the query, in order, is highlighted in the running result. */
  method HighlightMatch(text: string, query: string) returns (r: string)
    ensures query == "" ==> r == text
    ensures query != "" ==> r == HighlightAll(text, Terms(query))
  {
    if query == "" {
      return text;
    }
    var terms := Terms(query);
    r := text;
    for i := 0 to |terms|
      invariant forall t :: t in terms[..i] ==> |t| > 0
      invariant r == HighlightAll(text, terms[..i])
    {
      HighlightStep(text, terms, i);
      r := HighlightTerm(r, terms[i]);
    }
    assert terms[..|terms|] == terms;
  }
}
