/** Assembling a draft's claims and the citations they rest on. */
module Citations {
  import opened Wrappers

  /** A measurement the evaluator validated: one metric, two sides. */
  datatype Evidence = Evidence(metric: string, previous: string, current: string, execution: nat)

  datatype Kind = Observed | Interpretation

  datatype RawClaim = RawClaim(kind: Kind, metric: Option<string>, value: Option<string>, period: Option<string>)

  /** A claim as drafted; `citation` is the index of the one citation it rests on. */
  datatype Claim = Claim(
    kind: Kind, position: nat, metric: Option<string>, value: Option<string>, period: Option<string>, citation: Option<nat>)

  datatype Citation = Citation(metric: string, period: Option<string>, figure: string, execution: nat)

  datatype CitationError = TwoMeasurements | NoEvidence(position: nat) | ForeignValue(position: nat)

  datatype Result = Draft(claims: seq<Claim>, citations: seq<Citation>) | Refused(error: CitationError)

  function Text(o: Option<string>): string {
    match o
    case Some(s) => s
    case None => ""
  }

  /** A value is one of a measurement's two sides. */
  predicate SideOf(e: Evidence, value: string) {
    value == e.previous || value == e.current
  }

  ghost predicate DistinctMetrics(evidence: seq<Evidence>) {
    forall i, j :: 0 <= i < j < |evidence| ==> evidence[i].metric != evidence[j].metric
  }

  function Measured(evidence: seq<Evidence>, metric: string): Option<Evidence> {
    if evidence == [] then None
    else if evidence[0].metric == metric then Some(evidence[0])
    else Measured(evidence[1..], metric)
  }

  lemma {:induction false} MeasuredFinds(evidence: seq<Evidence>, metric: string)
    ensures Measured(evidence, metric).None? <==> forall e :: e in evidence ==> e.metric != metric
    ensures Measured(evidence, metric).Some? ==>
      Measured(evidence, metric).value in evidence && Measured(evidence, metric).value.metric == metric
  {
    if evidence != [] {
      MeasuredFinds(evidence[1..], metric);
    }
  }

  function KeyOf(c: Citation): (string, Option<string>) {
    (c.metric, c.period)
  }

  /** The key a claim's citation goes by. */
  function ClaimKey(r: RawClaim): (string, Option<string>) {
    (Text(r.metric), r.period)
  }

  // ---- What the assembled draft is

  /** Claims keep their place and words; an observed claim rests on exactly one citation, of its metric
      and period, and an interpretation on none. */
  ghost predicate ClaimMatches(r: RawClaim, position: nat, c: Claim, citations: seq<Citation>) {
    && c.kind == r.kind && c.position == position
    && c.metric == r.metric && c.value == r.value && c.period == r.period
    && (r.kind.Interpretation? ==> c.citation == None)
    && (r.kind.Observed? ==>
          c.citation.Some? && c.citation.value < |citations| &&
          citations[c.citation.value].metric == Text(r.metric) && citations[c.citation.value].period == r.period)
  }

  /** A citation is a measurement's, its figure one of that measurement's two sides, taken from the first
      observed claim with its metric and period. */
  ghost predicate CitationMatches(evidence: seq<Evidence>, raw: seq<RawClaim>, c: Citation) {
    && (exists e :: e in evidence && e.metric == c.metric && e.execution == c.execution && (c.figure == e.previous || c.figure == e.current))
    && exists i :: FirstWithKey(raw, i, KeyOf(c)) && c.figure == Text(raw[i].value)
  }

  ghost predicate FirstWithKey(raw: seq<RawClaim>, i: int, key: (string, Option<string>)) {
    && 0 <= i < |raw| && raw[i].kind.Observed? && ClaimKey(raw[i]) == key
    && forall j :: 0 <= j < i && raw[j].kind.Observed? ==> ClaimKey(raw[j]) != key
  }

  ghost predicate DistinctKeys(citations: seq<Citation>) {
    forall i, j :: 0 <= i < j < |citations| ==>
      citations[i].metric != citations[j].metric || citations[i].period != citations[j].period
  }

  ghost predicate Assembled(evidence: seq<Evidence>, raw: seq<RawClaim>, claims: seq<Claim>, citations: seq<Citation>) {
    && |claims| == |raw|
    && (forall i :: 0 <= i < |raw| ==> ClaimMatches(raw[i], i, claims[i], citations))
    && DistinctKeys(citations)
    && (forall c :: c in citations ==> CitationMatches(evidence, raw, c))
  }

  /** A claim that stops the assembly: observed of a metric without evidence, or the first of its metric
      and period with a value that is neither of its measurement's sides. */
  ghost predicate Stops(evidence: seq<Evidence>, raw: seq<RawClaim>, i: int) {
    && 0 <= i < |raw| && raw[i].kind.Observed?
    && (match Measured(evidence, Text(raw[i].metric))
        case None => true
        case Some(e) =>
          && FirstWithKey(raw, i, ClaimKey(raw[i]))
          && Text(raw[i].value) != e.previous && Text(raw[i].value) != e.current)
  }

  function PlaceOf(citations: seq<Citation>, key: (string, Option<string>)): Option<nat> {
    if citations == [] then None
    else
      var last := |citations| - 1;
      if KeyOf(citations[last]) == key then Some(last) else PlaceOf(citations[..last], key)
  }

  lemma {:induction false} PlaceOfFinds(citations: seq<Citation>, key: (string, Option<string>))
    ensures PlaceOf(citations, key).None? <==> forall c :: c in citations ==> KeyOf(c) != key
    ensures PlaceOf(citations, key).Some? ==>
      PlaceOf(citations, key).value < |citations| && KeyOf(citations[PlaceOf(citations, key).value]) == key
  {
    if citations != [] {
      var last := |citations| - 1;
      assert citations == citations[..last] + [citations[last]];
      PlaceOfFinds(citations[..last], key);
    }
  }

  /** Every observed claim looked at has its citation. */
  ghost predicate Cited(raw: seq<RawClaim>, citations: seq<Citation>) {
    forall i :: 0 <= i < |raw| && raw[i].kind.Observed? ==> exists c :: c in citations && KeyOf(c) == ClaimKey(raw[i])
  }

  // ---- One more claim

  lemma MatchesLater(evidence: seq<Evidence>, raw: seq<RawClaim>, r: RawClaim, c: Citation)
    requires CitationMatches(evidence, raw, c)
    ensures CitationMatches(evidence, raw + [r], c)
  {
    var i :| FirstWithKey(raw, i, KeyOf(c)) && c.figure == Text(raw[i].value);
    assert FirstWithKey(raw + [r], i, KeyOf(c));
  }

  lemma AddInterpretation(evidence: seq<Evidence>, raw: seq<RawClaim>, claims: seq<Claim>, citations: seq<Citation>, r: RawClaim)
    requires Assembled(evidence, raw, claims, citations) && Cited(raw, citations) && r.kind.Interpretation?
    ensures Assembled(evidence, raw + [r], claims + [Claim(r.kind, |raw|, r.metric, r.value, r.period, None)], citations)
    ensures Cited(raw + [r], citations)
  {
    forall c | c in citations ensures CitationMatches(evidence, raw + [r], c) {
      MatchesLater(evidence, raw, r, c);
    }
  }

  lemma AddToCitation(evidence: seq<Evidence>, raw: seq<RawClaim>, claims: seq<Claim>, citations: seq<Citation>, r: RawClaim, place: nat)
    requires Assembled(evidence, raw, claims, citations) && Cited(raw, citations) && r.kind.Observed?
    requires place < |citations| && KeyOf(citations[place]) == ClaimKey(r)
    ensures Assembled(evidence, raw + [r], claims + [Claim(r.kind, |raw|, r.metric, r.value, r.period, Some(place))], citations)
    ensures Cited(raw + [r], citations)
  {
    forall c | c in citations ensures CitationMatches(evidence, raw + [r], c) {
      MatchesLater(evidence, raw, r, c);
    }
    ClaimsLater(raw, claims, citations, r, Claim(r.kind, |raw|, r.metric, r.value, r.period, Some(place)));
  }

  lemma ClaimsLater(raw: seq<RawClaim>, claims: seq<Claim>, citations: seq<Citation>, r: RawClaim, c: Claim)
    requires |claims| == |raw| && (forall i :: 0 <= i < |raw| ==> ClaimMatches(raw[i], i, claims[i], citations))
    requires ClaimMatches(r, |raw|, c, citations)
    ensures var more, drafted := raw + [r], claims + [c];
      forall i :: 0 <= i < |more| ==> ClaimMatches(more[i], i, drafted[i], citations)
  {
  }

  lemma AddCitation(evidence: seq<Evidence>, raw: seq<RawClaim>, claims: seq<Claim>, citations: seq<Citation>, r: RawClaim, e: Evidence)
    requires Assembled(evidence, raw, claims, citations) && Cited(raw, citations) && r.kind.Observed?
    requires e in evidence && e.metric == Text(r.metric) && SideOf(e, Text(r.value))
    requires forall c :: c in citations ==> KeyOf(c) != ClaimKey(r)
    ensures Assembled(evidence, raw + [r],
              claims + [Claim(r.kind, |raw|, r.metric, r.value, r.period, Some(|citations|))],
              citations + [Citation(e.metric, r.period, Text(r.value), e.execution)])
    ensures Cited(raw + [r], citations + [Citation(e.metric, r.period, Text(r.value), e.execution)])
  {
    var x := Citation(e.metric, r.period, Text(r.value), e.execution);
    var more := citations + [x];
    assert (raw + [r])[|raw|] == r;
    forall i | 0 <= i < |citations| ensures KeyOf(more[i]) != KeyOf(x) {
      assert citations[i] in citations;
    }
    forall c | c in more ensures CitationMatches(evidence, raw + [r], c) {
      if c in citations {
        MatchesLater(evidence, raw, r, c);
      }
    }
    forall i | 0 <= i < |raw| ensures ClaimMatches(raw[i], i, claims[i], more) {
      assert ClaimMatches(raw[i], i, claims[i], citations);
    }
    forall i | 0 <= i < |raw + [r]| && (raw + [r])[i].kind.Observed?
      ensures exists c :: c in more && KeyOf(c) == ClaimKey((raw + [r])[i])
    {
      if i < |raw| {
        var c :| c in citations && KeyOf(c) == ClaimKey(raw[i]);
        assert c in more;
      } else {
        assert x in more;
      }
    }
  }

  // ---- The assembly

  /** Is some metric measured twice? */
  method RepeatsMetric(evidence: seq<Evidence>) returns (repeats: bool)
    ensures repeats <==> !DistinctMetrics(evidence)
  {
    var byMetric: set<string> := {};
    for i := 0 to |evidence|
      invariant forall m :: m in byMetric <==> exists j :: 0 <= j < i && evidence[j].metric == m
      invariant DistinctMetrics(evidence[..i])
    {
      if evidence[i].metric in byMetric {
        return true;
      }
      byMetric := byMetric + {evidence[i].metric};
    }
    assert evidence[..|evidence|] == evidence;
    return false;
  }

  /** Where the assembly stands before its k-th claim. */
  ghost predicate Progress(evidence: seq<Evidence>, raw: seq<RawClaim>, k: nat, claims: seq<Claim>, citations: seq<Citation>) {
    && k <= |raw|
    && Assembled(evidence, raw[..k], claims, citations) && Cited(raw[..k], citations)
    && forall i :: 0 <= i < k ==> !Stops(evidence, raw, i)
  }

  function Drafted(r: RawClaim, position: nat, citation: Option<nat>): Claim {
    Claim(r.kind, position, r.metric, r.value, r.period, citation)
  }

  lemma NextInterpretation(evidence: seq<Evidence>, raw: seq<RawClaim>, k: nat, claims: seq<Claim>, citations: seq<Citation>)
    requires k < |raw| && Progress(evidence, raw, k, claims, citations) && raw[k].kind.Interpretation?
    ensures Progress(evidence, raw, k + 1, claims + [Drafted(raw[k], k, None)], citations)
  {
    AddInterpretation(evidence, raw[..k], claims, citations, raw[k]);
    assert raw[..k + 1] == raw[..k] + [raw[k]];
  }

  lemma NextOnCitation(evidence: seq<Evidence>, raw: seq<RawClaim>, k: nat, claims: seq<Claim>, citations: seq<Citation>, place: nat)
    requires k < |raw| && Progress(evidence, raw, k, claims, citations) && raw[k].kind.Observed?
    requires Measured(evidence, Text(raw[k].metric)).Some?
    requires place < |citations| && KeyOf(citations[place]) == ClaimKey(raw[k])
    ensures Progress(evidence, raw, k + 1, claims + [Drafted(raw[k], k, Some(place))], citations)
  {
    AddToCitation(evidence, raw[..k], claims, citations, raw[k], place);
    CitedIsNotFirst(evidence, raw, claims, citations, k, place);
    assert raw[..k + 1] == raw[..k] + [raw[k]];
  }

  lemma NextCitation(evidence: seq<Evidence>, raw: seq<RawClaim>, k: nat, claims: seq<Claim>, citations: seq<Citation>, e: Evidence)
    requires k < |raw| && Progress(evidence, raw, k, claims, citations) && raw[k].kind.Observed?
    requires Measured(evidence, Text(raw[k].metric)) == Some(e) && SideOf(e, Text(raw[k].value))
    requires forall c :: c in citations ==> KeyOf(c) != ClaimKey(raw[k])
    ensures Progress(evidence, raw, k + 1, claims + [Drafted(raw[k], k, Some(|citations|))],
              citations + [Citation(e.metric, raw[k].period, Text(raw[k].value), e.execution)])
  {
    MeasuredFinds(evidence, Text(raw[k].metric));
    AddCitation(evidence, raw[..k], claims, citations, raw[k], e);
    assert raw[..k + 1] == raw[..k] + [raw[k]];
  }

  lemma ForeignStops(evidence: seq<Evidence>, raw: seq<RawClaim>, k: nat, claims: seq<Claim>, citations: seq<Citation>, e: Evidence)
    requires k < |raw| && Progress(evidence, raw, k, claims, citations) && raw[k].kind.Observed?
    requires Measured(evidence, Text(raw[k].metric)) == Some(e) && !SideOf(e, Text(raw[k].value))
    requires forall c :: c in citations ==> KeyOf(c) != ClaimKey(raw[k])
    ensures Stops(evidence, raw, k)
  {
    FirstInWhole(raw, k);
  }

  /** The first claim that stops the assembly. */
  ghost predicate StopsFirst(evidence: seq<Evidence>, raw: seq<RawClaim>, k: nat) {
    Stops(evidence, raw, k) && forall i :: 0 <= i < k ==> !Stops(evidence, raw, i)
  }

  /** Drafts the claims with their citations, or refuses at the first claim that cannot be cited. */
  method DraftWithCitations(evidence: seq<Evidence>, raw: seq<RawClaim>) returns (result: Result)
    ensures match result
      case Draft(claims, citations) =>
        && DistinctMetrics(evidence) && Assembled(evidence, raw, claims, citations)
        && forall i :: !Stops(evidence, raw, i)
      case Refused(TwoMeasurements) => !DistinctMetrics(evidence)
      case Refused(NoEvidence(k)) =>
        && DistinctMetrics(evidence) && StopsFirst(evidence, raw, k)
        && forall e :: e in evidence ==> e.metric != Text(raw[k].metric)
      case Refused(ForeignValue(k)) =>
        && DistinctMetrics(evidence) && StopsFirst(evidence, raw, k)
        && exists e :: e in evidence && e.metric == Text(raw[k].metric)
  {
    var repeats := RepeatsMetric(evidence);
    if repeats {
      return Refused(TwoMeasurements);
    }
    var claims, citations := [], [];
    for k := 0 to |raw|
      invariant Progress(evidence, raw, k, claims, citations)
    {
      var r := raw[k];
      var citation: Option<nat> := None;
      if r.kind.Observed? {
        MeasuredFinds(evidence, Text(r.metric));
        var measured := Measured(evidence, Text(r.metric));
        if measured.None? {
          assert Stops(evidence, raw, k);
          return Refused(NoEvidence(k));
        }
        PlaceOfFinds(citations, ClaimKey(r));
        citation := PlaceOf(citations, ClaimKey(r));
        if citation.None? {
          if !SideOf(measured.value, Text(r.value)) {
            ForeignStops(evidence, raw, k, claims, citations, measured.value);
            return Refused(ForeignValue(k));
          }
          NextCitation(evidence, raw, k, claims, citations, measured.value);
          citation := Some(|citations|);
          citations := citations + [Citation(measured.value.metric, r.period, Text(r.value), measured.value.execution)];
        } else {
          NextOnCitation(evidence, raw, k, claims, citations, citation.value);
        }
      } else {
        NextInterpretation(evidence, raw, k, claims, citations);
      }
      claims := claims + [Drafted(r, k, citation)];
    }
    assert raw[..|raw|] == raw;
    return Draft(claims, citations);
  }

  lemma FirstInWhole(raw: seq<RawClaim>, k: nat)
    requires k < |raw| && FirstWithKey(raw[..k] + [raw[k]], k, ClaimKey(raw[k]))
    ensures FirstWithKey(raw, k, ClaimKey(raw[k]))
  {
    forall j | 0 <= j < k && raw[j].kind.Observed? ensures ClaimKey(raw[j]) != ClaimKey(raw[k]) {
      assert (raw[..k] + [raw[k]])[j] == raw[j];
    }
  }

  lemma CitedIsNotFirst(evidence: seq<Evidence>, raw: seq<RawClaim>, claims: seq<Claim>, citations: seq<Citation>, k: nat, place: nat)
    requires k < |raw| && Assembled(evidence, raw[..k], claims, citations)
    requires place < |citations| && KeyOf(citations[place]) == ClaimKey(raw[k])
    ensures !FirstWithKey(raw, k, ClaimKey(raw[k]))
  {
    assert citations[place] in citations;
    var i :| FirstWithKey(raw[..k], i, KeyOf(citations[place]));
    assert raw[..k][i] == raw[i];
  }

  // ---- Does a citation carry its claim's figure?

  /** Observed claims of one metric and period agree on the value. */
  ghost predicate ClaimsAgree(raw: seq<RawClaim>) {
    forall i, j :: SameKeyObserved(raw, i, j) ==> Text(raw[i].value) == Text(raw[j].value)
  }

  ghost predicate SameKeyObserved(raw: seq<RawClaim>, i: int, j: int) {
    && 0 <= i < |raw| && 0 <= j < |raw|
    && raw[i].kind.Observed? && raw[j].kind.Observed?
    && ClaimKey(raw[i]) == ClaimKey(raw[j])
  }

  ghost predicate FiguresMatch(claims: seq<Claim>, citations: seq<Citation>) {
    forall c :: c in claims && c.citation.Some? && c.citation.value < |citations| ==>
      citations[c.citation.value].figure == Text(c.value)
  }

  /** A citation is reused for every claim of its metric and period without looking at the value again, so
      its figure is every citing claim's figure exactly when those claims agree among themselves. */
  lemma FiguresMatchIff(evidence: seq<Evidence>, raw: seq<RawClaim>, claims: seq<Claim>, citations: seq<Citation>)
    requires Assembled(evidence, raw, claims, citations)
    ensures FiguresMatch(claims, citations) <==> ClaimsAgree(raw)
  {
    if ClaimsAgree(raw) {
      forall c | c in claims && c.citation.Some? && c.citation.value < |citations|
        ensures citations[c.citation.value].figure == Text(c.value)
      {
        var k :| 0 <= k < |claims| && claims[k] == c;
        assert ClaimMatches(raw[k], k, c, citations);
        var x := citations[c.citation.value];
        assert x in citations;
        var i :| FirstWithKey(raw, i, KeyOf(x)) && x.figure == Text(raw[i].value);
        assert SameKeyObserved(raw, k, i);
      }
    }
    if FiguresMatch(claims, citations) {
      forall i, j | SameKeyObserved(raw, i, j) ensures Text(raw[i].value) == Text(raw[j].value) {
        SameKeySameFigure(evidence, raw, claims, citations, i, j);
      }
    }
  }

  lemma SameKeySameFigure(evidence: seq<Evidence>, raw: seq<RawClaim>, claims: seq<Claim>, citations: seq<Citation>, i: int, j: int)
    requires Assembled(evidence, raw, claims, citations) && FiguresMatch(claims, citations) && SameKeyObserved(raw, i, j)
    ensures Text(raw[i].value) == Text(raw[j].value)
  {
  }

  /** Two claims about one metric and period, one naming each side, are drafted onto one citation, which then
      carries a figure that one of them does not. */
  lemma CitationCanCarryAnotherFigure(e: Evidence, period: Option<string>, claims: seq<Claim>, citations: seq<Citation>)
    requires e.previous != e.current
    ensures forall i :: !Stops([e], BothSides(e, period), i)
    ensures Assembled([e], BothSides(e, period), claims, citations) ==> !FiguresMatch(claims, citations)
  {
    var raw := BothSides(e, period);
    assert Measured([e], e.metric) == Some(e);
    assert SameKeyObserved(raw, 0, 1);
    if Assembled([e], raw, claims, citations) {
      FiguresMatchIff([e], raw, claims, citations);
    }
  }

  function BothSides(e: Evidence, period: Option<string>): seq<RawClaim> {
    [RawClaim(Observed, Some(e.metric), Some(e.previous), period),
     RawClaim(Observed, Some(e.metric), Some(e.current), period)]
  }
}
