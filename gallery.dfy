/** The gallery page: the category selector, the filtered list of results, and each result's
    card (gradient, heading, per-category details and the link to a new analysis). The list
    itself is example data set once after the loading delay. */
module Gallery {
  import opened Common
  import opened Kinds
  import opened PageRules
  import PrivateRoute

  /** `details`: every field is optional. `confidence` is kept as the text it renders as. */
  datatype Details = Details(names: Option<seq<string>>, peopleCount: Option<nat>, confidence: Option<string>)

  /** `AnalysisResult`. */
  datatype Result = Result(id: string, kind: Kind, imageUrl: string, date: string, details: Details)

  /** `selectedType`: `'all'` or one category. */
  datatype Selection = All | Only(kind: Kind)

  /** `['all', 'face', 'group', 'crowd']`, the selector's buttons in order. */
  const Options: seq<Selection> := [All, Only(Face), Only(Group), Only(Crowd)]

  function SelectionName(s: Selection): string {
    match s
    case All => "all"
    case Only(k) => Name(k)
  }

  /** Every selection has a button. */
  lemma OptionsComplete(s: Selection)
    ensures s in Options
  {
    match s
    case All =>
      assert Options[0] == s;
    case Only(k) =>
      match k
      case Face => assert Options[1] == s;
      case Group => assert Options[2] == s;
      case Crowd => assert Options[3] == s;
  }

  // ----- filtering -----

  /** `selectedType === 'all' || result.type === selectedType`. */
  predicate Selects(sel: Selection, r: Result) {
    match sel
    case All => true
    case Only(k) => r.kind == k
  }

  /** `results.filter(result => result.type === kind)`. */
  function FilterKind(results: seq<Result>, kind: Kind): (r: seq<Result>)
    ensures |r| <= |results|
    ensures forall i :: 0 <= i < |r| ==> r[i].kind == kind && r[i] in results
    decreases |results|
  {
    if results == [] then []
    else
      var rest := FilterKind(results[1..], kind);
      assert forall x :: x in results[1..] ==> x in results;
      if results[0].kind == kind then [results[0]] + rest else rest
  }

  /** `filteredResults`. */
  function Filtered(sel: Selection, results: seq<Result>): (r: seq<Result>)
    ensures sel == All ==> r == results
    ensures forall i :: 0 <= i < |r| ==> Selects(sel, r[i]) && r[i] in results
  {
    match sel
    case All => results
    case Only(k) => FilterKind(results, k)
  }

  /** The filter keeps every result of the chosen category as often as it occurs, and drops
      every other result. */
  lemma {:induction false} FilterKindCounts(results: seq<Result>, kind: Kind)
    ensures forall x :: multiset(FilterKind(results, kind))[x] == if x.kind == kind then multiset(results)[x] else 0
    decreases |results|
  {
    if results != [] {
      FilterKindCounts(results[1..], kind);
      assert results == [results[0]] + results[1..];
    }
  }

  lemma FilteredCounts(sel: Selection, results: seq<Result>)
    ensures forall x :: multiset(Filtered(sel, results))[x] == if Selects(sel, x) then multiset(results)[x] else 0
  {
    if sel.Only? {
      FilterKindCounts(results, sel.kind);
    }
  }

  lemma FilteredIsSubsequence(sel: Selection, results: seq<Result>)
    ensures IsSubsequence(Filtered(sel, results), results)
  {
    if sel.Only? {
      FilterKindIsSubsequence(results, sel.kind);
    } else {
      SubsequenceReflexive(results);
    }
  }

  lemma {:induction false} SubsequenceReflexive(s: seq<Result>)
    ensures IsSubsequence(s, s)
    decreases |s|
  {
    if s != [] {
      SubsequenceReflexive(s[1..]);
    }
  }

  /** `sub` is `s` with some elements left out, the others kept in order. */
  predicate IsSubsequence(sub: seq<Result>, s: seq<Result>)
    decreases |s|
  {
    sub == [] || (s != [] && ((sub[0] == s[0] && IsSubsequence(sub[1..], s[1..])) || IsSubsequence(sub, s[1..])))
  }

  lemma {:induction false} FilterKindIsSubsequence(results: seq<Result>, kind: Kind)
    ensures IsSubsequence(FilterKind(results, kind), results)
    decreases |results|
  {
    if results != [] {
      FilterKindIsSubsequence(results[1..], kind);
      var r := FilterKind(results, kind);
      if results[0].kind == kind {
        assert r[0] == results[0] && r[1..] == FilterKind(results[1..], kind);
      }
    }
  }

  /** Filtering what is already filtered changes nothing. */
  lemma {:induction false} FilterKindIdempotent(results: seq<Result>, kind: Kind)
    ensures FilterKind(FilterKind(results, kind), kind) == FilterKind(results, kind)
    decreases |results|
  {
    if results != [] {
      FilterKindIdempotent(results[1..], kind);
      var r := FilterKind(results, kind);
      if results[0].kind == kind {
        assert r[0] == results[0] && r[1..] == FilterKind(results[1..], kind);
      }
    }
  }

  lemma FilteredIdempotent(sel: Selection, results: seq<Result>)
    ensures Filtered(sel, Filtered(sel, results)) == Filtered(sel, results)
  {
    if sel.Only? {
      FilterKindIdempotent(results, sel.kind);
    }
  }

  /** The filtered list is empty exactly when no result belongs to the selection. */
  lemma FilteredEmptyIff(sel: Selection, results: seq<Result>)
    ensures Filtered(sel, results) == [] <==>
      forall i :: 0 <= i < |results| ==> !Selects(sel, results[i])
  {
    if sel.Only? {
      FilterKindCounts(results, sel.kind);
      if exists i :: 0 <= i < |results| && results[i].kind == sel.kind {
        var i :| 0 <= i < |results| && results[i].kind == sel.kind;
        assert results[i] in multiset(results);
        assert results[i] in multiset(Filtered(sel, results));
      }
    } else if results != [] {
      assert Selects(sel, results[0]);
    }
  }

  // ----- the selector -----

  /** A button's caption: `type.charAt(0).toUpperCase() + type.slice(1)`. */
  function ButtonLabel(s: Selection): (r: string)
    ensures |r| > 0 && IsAsciiUpper(r[0])
  {
    Capitalize(SelectionName(s))
  }

  /** The selector reads `All`, `Face`, `Group`, `Crowd`. */
  lemma SelectorLabels()
    ensures |Options| == 4
    ensures ButtonLabel(Options[0]) == "All" && ButtonLabel(Options[1]) == "Face"
    ensures ButtonLabel(Options[2]) == "Group" && ButtonLabel(Options[3]) == "Crowd"
  {
    assert Capitalize("all") == [UpperChar('a')] + "ll";
    assert Capitalize("face") == [UpperChar('f')] + "ace";
    assert Capitalize("group") == [UpperChar('g')] + "roup";
    assert Capitalize("crowd") == [UpperChar('c')] + "rowd";
  }

  /** `selectedType === type`: the highlighted button is the selected one, and only it. */
  predicate Highlighted(selected: Selection, option: Selection) {
    SelectionName(selected) == SelectionName(option)
  }

  lemma HighlightedIsSelected(selected: Selection, option: Selection)
    ensures Highlighted(selected, option) <==> selected == option
  {
    if Highlighted(selected, option) && selected.Only? && option.Only? {
      NameInjective(selected.kind, option.kind);
    }
  }

  // ----- cards -----

  /** `getGradient`: one colour pair per category. */
  function Gradient(k: Kind): (r: string)
    ensures r != ""
  {
    match k
    case Face => "from-purple-500 to-pink-500"
    case Group => "from-blue-500 to-teal-500"
    case Crowd => "from-orange-500 to-red-500"
  }

  lemma GradientsDistinct(j: Kind, k: Kind)
    requires j != k
    ensures Gradient(j) != Gradient(k)
  {
  }

  /** The card's heading, `Face Analysis` for a face result. */
  function CardHeading(r: Result): (h: string)
    ensures h == Title(Some(Name(r.kind)))
  {
    Capitalize(Name(r.kind)) + " Analysis"
  }

  /** JSX renders a missing value as nothing. */
  function OptText(s: Option<string>): string {
    if s.None? then "" else s.value
  }

  function CountText(n: Option<nat>): string {
    if n.None? then "" else DecimalText(n.value)
  }

  /** `result.details.names?.[0]`. */
  function FirstName(names: Option<seq<string>>): (r: Option<string>)
    ensures r.Some? <==> names.Some? && |names.value| > 0
  {
    if names.None? || |names.value| == 0 then None else Some(names.value[0])
  }

  /** `result.details.names?.join(', ')`. */
  function NamesText(names: Option<seq<string>>): (r: Option<string>)
    ensures r.Some? <==> names.Some?
  {
    if names.None? then None else Some(Join(names.value, ", "))
  }

  /** The detail lines of a card: the first name and the confidence for a face, the joined names
      and the count for a group, only the count for a crowd. */
  function DetailLines(r: Result): seq<string> {
    match r.kind
    case Face =>
      ["Name: " + OptText(FirstName(r.details.names)), "Confidence: " + OptText(r.details.confidence) + "%"]
    case Group =>
      ["People: " + OptText(NamesText(r.details.names)), "Count: " + CountText(r.details.peopleCount)]
    case Crowd => ["People Count: " + CountText(r.details.peopleCount)]
  }

  /** What a card tells: a face card names the first person and shows the confidence, a group
      card names every person and shows the count, a crowd card shows only the count; each line
      starts with its caption. */
  lemma DetailLinesShow(r: Result)
    ensures |DetailLines(r)| == if r.kind == Crowd then 1 else 2
    ensures r.kind == Face ==> IsPrefix("Name: ", DetailLines(r)[0]) && IsPrefix("Confidence: ", DetailLines(r)[1])
    ensures r.kind == Face && r.details.names.Some? && |r.details.names.value| > 0 ==>
      Contains(DetailLines(r)[0], r.details.names.value[0])
    ensures r.kind == Face && r.details.confidence.Some? ==>
      Contains(DetailLines(r)[1], r.details.confidence.value)
    ensures r.kind == Group ==> IsPrefix("People: ", DetailLines(r)[0]) && IsPrefix("Count: ", DetailLines(r)[1])
    ensures r.kind == Group && r.details.names.Some? ==>
      forall i :: 0 <= i < |r.details.names.value| ==> Contains(DetailLines(r)[0], r.details.names.value[i])
    ensures r.kind == Crowd ==> IsPrefix("People Count: ", DetailLines(r)[0])
    ensures r.kind != Face && r.details.peopleCount.Some? ==>
      Contains(DetailLines(r)[|DetailLines(r)| - 1], DecimalText(r.details.peopleCount.value))
  {
    var lines := DetailLines(r);
    var d := r.details;
    match r.kind
    case Face =>
      assert lines[0][..6] == "Name: ";
      assert lines[1][..12] == "Confidence: ";
      if d.names.Some? && |d.names.value| > 0 {
        ContainsItself(d.names.value[0]);
        ContainsInConcat("Name: ", d.names.value[0], d.names.value[0]);
      }
      if d.confidence.Some? {
        ContainsItself(d.confidence.value);
        ContainsInConcat("Confidence: ", d.confidence.value, d.confidence.value);
        ContainsInConcat("Confidence: " + d.confidence.value, "%", d.confidence.value);
      }
    case Group =>
      assert lines[0][..8] == "People: ";
      assert lines[1][..7] == "Count: ";
      if d.names.Some? {
        forall i | 0 <= i < |d.names.value| ensures Contains(lines[0], d.names.value[i]) {
          JoinContains(d.names.value, ", ", i);
          ContainsInConcat("People: ", Join(d.names.value, ", "), d.names.value[i]);
        }
      }
      if d.peopleCount.Some? {
        ContainsItself(DecimalText(d.peopleCount.value));
        ContainsInConcat("Count: ", DecimalText(d.peopleCount.value), DecimalText(d.peopleCount.value));
      }
    case Crowd =>
      assert lines[0][..14] == "People Count: ";
      if d.peopleCount.Some? {
        ContainsItself(DecimalText(d.peopleCount.value));
        ContainsInConcat("People Count: ", DecimalText(d.peopleCount.value), DecimalText(d.peopleCount.value));
      }
  }

  /** A card shows only its own category's fields: a face card does not depend on the count, a
      group card not on the confidence, and a crowd card on neither the names nor the confidence. */
  lemma DetailLinesIgnoreOtherFields(r: Result, d: Details)
    ensures r.kind == Face && d.names == r.details.names && d.confidence == r.details.confidence ==>
      DetailLines(r.(details := d)) == DetailLines(r)
    ensures r.kind == Group && d.names == r.details.names && d.peopleCount == r.details.peopleCount ==>
      DetailLines(r.(details := d)) == DetailLines(r)
    ensures r.kind == Crowd && d.peopleCount == r.details.peopleCount ==>
      DetailLines(r.(details := d)) == DetailLines(r)
  {
  }

  /** The "New Analysis" button's target. */
  function NewAnalysisPath(r: Result): string {
    "/analysis/" + Name(r.kind)
  }

  /** The link leads to a signed-in route that the analysis page accepts for the card's category. */
  lemma NewAnalysisLinkAccepted(r: Result)
    ensures PrivateRoute.Match(NewAnalysisPath(r)) == Some(PrivateRoute.AnalysisRoute(Name(r.kind)))
    ensures PrivateRoute.Guarded(PrivateRoute.AnalysisRoute(Name(r.kind)))
    ensures RouteKind(Some(Name(r.kind))) == Some(r.kind)
  {
    ParseName(r.kind);
    PrivateRoute.MatchPathOf(PrivateRoute.AnalysisRoute(Name(r.kind)));
  }

  datatype Card = Card(gradient: string, heading: string, date: string, details: seq<string>, link: string)

  function CardOf(r: Result): Card {
    Card(Gradient(r.kind), CardHeading(r), r.date, DetailLines(r), NewAnalysisPath(r))
  }

  datatype Screen = LoadingScreen | Grid(cards: seq<Card>, noResults: bool)

  /** What the page renders: the loading screen until the delay has passed, then one card per
      filtered result, in order, and the "No results found" message exactly when there is none. */
  function Render(loading: bool, results: seq<Result>, sel: Selection): (s: Screen)
    ensures loading <==> s == LoadingScreen
    ensures !loading ==> |s.cards| == |Filtered(sel, results)|
    ensures !loading ==> forall i :: 0 <= i < |s.cards| ==> s.cards[i] == CardOf(Filtered(sel, results)[i])
    ensures !loading ==> (s.noResults <==> |s.cards| == 0)
  {
    if loading then LoadingScreen
    else
      var shown := Filtered(sel, results);
      Grid(seq(|shown|, i requires 0 <= i < |shown| => CardOf(shown[i])), |shown| == 0)
  }
}
