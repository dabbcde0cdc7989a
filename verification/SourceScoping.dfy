/** Several data sources behind one semantic layer: naming a member by its source, and routing a query to
    the one source it names. */
module SourceScoping {
  import opened Wrappers
  import opened Sequences

  // ---- Source ids and their text

  function Pow16(k: nat): (p: nat)
    ensures p > 0
  {
    if k == 0 then 1 else 16 * Pow16(k - 1)
  }

  /** A UUID is a number of 32 hexadecimal digits. */
  type SourceId = n: nat | n < Pow16(32)

  function Hex(n: nat, width: nat): string {
    if width == 0 then "" else Hex(n / 16, width - 1) + ["0123456789abcdef"[n % 16]]
  }

  ghost predicate NoColon(s: string) {
    forall i :: 0 <= i < |s| ==> s[i] != ':'
  }

  lemma {:induction false} HexIsPlain(n: nat, width: nat)
    ensures |Hex(n, width)| == width && NoColon(Hex(n, width))
  {
    if width > 0 {
      HexIsPlain(n / 16, width - 1);
    }
  }

  lemma {:induction false} HexIsExact(a: nat, b: nat, width: nat)
    requires a < Pow16(width) && b < Pow16(width) && Hex(a, width) == Hex(b, width)
    ensures a == b
  {
    if width > 0 {
      var x, y := Hex(a / 16, width - 1), Hex(b / 16, width - 1);
      HexIsPlain(a / 16, width - 1);
      HexIsPlain(b / 16, width - 1);
      assert Hex(a, width)[..width - 1] == x && Hex(b, width)[..width - 1] == y;
      assert Hex(a, width)[width - 1] == "0123456789abcdef"[a % 16] && Hex(b, width)[width - 1] == "0123456789abcdef"[b % 16];
      HexIsExact(a / 16, b / 16, width - 1);
    }
  }

  /** A UUID's text: its digits in groups of 8, 4, 4, 4 and 12. */
  function Label(id: SourceId): string {
    HexIsPlain(id, 32);
    var h := Hex(id, 32);
    h[..8] + "-" + h[8..12] + "-" + h[12..16] + "-" + h[16..20] + "-" + h[20..]
  }

  lemma LabelIsPlain(id: SourceId)
    ensures |Label(id)| == 36 && NoColon(Label(id))
  {
    HexIsPlain(id, 32);
  }

  lemma LabelIsExact(a: SourceId, b: SourceId)
    ensures Label(a) == Label(b) <==> a == b
  {
    if Label(a) == Label(b) {
      DigitsOfLabel(a);
      DigitsOfLabel(b);
      HexIsExact(a, b, 32);
    }
  }

  lemma DigitsOfLabel(id: SourceId)
    ensures |Label(id)| == 36
    ensures var t := Label(id); t[..8] + t[9..13] + t[14..18] + t[19..23] + t[24..] == Hex(id, 32)
  {
    HexIsPlain(id, 32);
    var h, t := Hex(id, 32), Label(id);
    assert t[..8] == h[..8] && t[9..13] == h[8..12] && t[14..18] == h[12..16] && t[19..23] == h[16..20] && t[24..] == h[20..];
  }

  // ---- Names that carry their source

  function Prefix(id: SourceId): string {
    Label(id) + "::"
  }

  function Qualified(id: SourceId, name: string): string {
    Prefix(id) + name
  }

  predicate BelongsTo(id: SourceId, name: string) {
    |Prefix(id)| <= |name| && name[..|Prefix(id)|] == Prefix(id)
  }

  /** The name inside its source, or nothing when the name is not of that source. */
  function LocalMember(id: SourceId, name: string): Option<string> {
    if BelongsTo(id, name) then Some(name[|Prefix(id)|..]) else None
  }

  /** Localising is exactly the inverse of qualifying. */
  lemma LocalIffQualified(id: SourceId, name: string, local: string)
    ensures LocalMember(id, name) == Some(local) <==> name == Qualified(id, local)
  {
  }

  /** No name belongs to two sources, and none stands for two members of one. */
  lemma QualifiedIsExact(a: SourceId, x: string, b: SourceId, y: string)
    ensures Qualified(a, x) == Qualified(b, y) <==> a == b && x == y
    ensures LocalMember(b, Qualified(a, x)) == if a == b then Some(x) else None
  {
    LabelIsPlain(a);
    LabelIsPlain(b);
    LabelIsExact(a, b);
    assert Qualified(a, x)[..36] == Label(a) && Qualified(b, y)[..36] == Label(b);
    assert Qualified(a, x)[38..] == x && Qualified(b, y)[38..] == y;
    if BelongsTo(b, Qualified(a, x)) {
      assert Qualified(a, x)[..38][..36] == Prefix(b)[..36] == Label(b);
    }
  }

  // ---- Queries

  datatype TimeDimension = TimeDimension(dimension: string, granularity: Option<string>, dateRange: Option<(string, string)>)

  datatype Filter = Filter(member: string, operator: string, values: seq<string>)

  datatype Query = Query(
    measures: seq<string>, dimensions: seq<string>, times: seq<TimeDimension>, filters: seq<Filter>,
    limit: Option<nat>, source: Option<SourceId>)

  function TimeNames(times: seq<TimeDimension>): seq<string> {
    seq(|times|, i requires 0 <= i < |times| => times[i].dimension)
  }

  function FilterNames(filters: seq<Filter>): seq<string> {
    seq(|filters|, i requires 0 <= i < |filters| => filters[i].member)
  }

  /** Every member a query names. */
  function Members(q: Query): seq<string> {
    q.measures + q.dimensions + TimeNames(q.times) + FilterNames(q.filters)
  }

  function QualifiedAll(id: SourceId, names: seq<string>): seq<string> {
    seq(|names|, i requires 0 <= i < |names| => Qualified(id, names[i]))
  }

  function QualifiedTimes(id: SourceId, times: seq<TimeDimension>): seq<TimeDimension> {
    seq(|times|, i requires 0 <= i < |times| => times[i].(dimension := Qualified(id, times[i].dimension)))
  }

  function QualifiedFilters(id: SourceId, filters: seq<Filter>): seq<Filter> {
    seq(|filters|, i requires 0 <= i < |filters| => filters[i].(member := Qualified(id, filters[i].member)))
  }

  /** A source's own query in the words of the whole layer. */
  function Requalified(id: SourceId, q: Query): Query {
    q.(measures := QualifiedAll(id, q.measures),
       dimensions := QualifiedAll(id, q.dimensions),
       times := QualifiedTimes(id, q.times),
       filters := QualifiedFilters(id, q.filters))
  }

  function LocalNames(id: SourceId, names: seq<string>): Option<seq<string>> {
    if forall i :: 0 <= i < |names| ==> LocalMember(id, names[i]).Some?
    then Some(seq(|names|, i requires 0 <= i < |names| && LocalMember(id, names[i]).Some? => LocalMember(id, names[i]).value))
    else None
  }

  function LocalTimes(id: SourceId, times: seq<TimeDimension>): Option<seq<TimeDimension>> {
    match LocalNames(id, TimeNames(times))
    case None => None
    case Some(names) => Some(seq(|times|, i requires 0 <= i < |times| && |names| == |times| => times[i].(dimension := names[i])))
  }

  function LocalFilters(id: SourceId, filters: seq<Filter>): Option<seq<Filter>> {
    match LocalNames(id, FilterNames(filters))
    case None => None
    case Some(names) => Some(seq(|filters|, i requires 0 <= i < |filters| && |names| == |filters| => filters[i].(member := names[i])))
  }

  datatype Routing = Routed(layer: nat, request: Query) | NoSource | UnknownSource | CrossSource

  /** Finds the one layer a query goes to, and the query in that layer's words. */
  function LocalRequest(sources: seq<SourceId>, q: Query): Routing {
    match q.source
    case None => NoSource
    case Some(id) =>
      if id !in sources then UnknownSource
      else
        match (LocalNames(id, q.measures), LocalNames(id, q.dimensions), LocalTimes(id, q.times), LocalFilters(id, q.filters))
        case (Some(measures), Some(dimensions), Some(times), Some(filters)) =>
          Routed(IndexOf(sources, id), q.(measures := measures, dimensions := dimensions, times := times, filters := filters))
        case _ => CrossSource
  }

  lemma LocalNamesIff(id: SourceId, names: seq<string>, local: seq<string>)
    ensures LocalNames(id, names) == Some(local) <==> names == QualifiedAll(id, local)
    ensures LocalNames(id, names).Some? <==> forall n :: n in names ==> BelongsTo(id, n)
  {
    if LocalNames(id, names) == Some(local) {
      forall i | 0 <= i < |names| ensures names[i] == Qualified(id, local[i]) {
        LocalIffQualified(id, names[i], local[i]);
      }
    }
    if names == QualifiedAll(id, local) {
      forall i | 0 <= i < |names| ensures LocalMember(id, names[i]) == Some(local[i]) {
        LocalIffQualified(id, names[i], local[i]);
      }
      assert LocalNames(id, names).value == local;
    }
  }

  lemma LocalTimesIff(id: SourceId, times: seq<TimeDimension>, local: seq<TimeDimension>)
    ensures LocalTimes(id, times) == Some(local) <==> times == QualifiedTimes(id, local)
    ensures LocalTimes(id, times).Some? <==> forall n :: n in TimeNames(times) ==> BelongsTo(id, n)
  {
    LocalNamesIff(id, TimeNames(times), TimeNames(local));
    if LocalTimes(id, times) == Some(local) {
      assert TimeNames(local) == LocalNames(id, TimeNames(times)).value;
    }
    if times == QualifiedTimes(id, local) {
      assert TimeNames(times) == QualifiedAll(id, TimeNames(local));
      assert LocalTimes(id, times).value == local;
    }
  }

  lemma LocalFiltersIff(id: SourceId, filters: seq<Filter>, local: seq<Filter>)
    ensures LocalFilters(id, filters) == Some(local) <==> filters == QualifiedFilters(id, local)
    ensures LocalFilters(id, filters).Some? <==> forall n :: n in FilterNames(filters) ==> BelongsTo(id, n)
  {
    LocalNamesIff(id, FilterNames(filters), FilterNames(local));
    if LocalFilters(id, filters) == Some(local) {
      assert FilterNames(local) == LocalNames(id, FilterNames(filters)).value;
    }
    if filters == QualifiedFilters(id, local) {
      assert FilterNames(filters) == QualifiedAll(id, FilterNames(local));
      assert LocalFilters(id, filters).value == local;
    }
  }

  /** Routing is exactly the inverse of re-qualification: a query goes to a layer, in that layer's words,
      precisely when re-qualifying those words gives the query back. */
  lemma RoutedIff(sources: seq<SourceId>, q: Query, layer: nat, local: Query)
    requires Distinct(sources)
    ensures LocalRequest(sources, q) == Routed(layer, local) <==>
      layer < |sources| && local.source == Some(sources[layer]) && q == Requalified(sources[layer], local)
  {
    if q.source.Some? {
      var id := q.source.value;
      LocalNamesIff(id, q.measures, local.measures);
      LocalNamesIff(id, q.dimensions, local.dimensions);
      LocalTimesIff(id, q.times, local.times);
      LocalFiltersIff(id, q.filters, local.filters);
    }
  }

  /** Why a query is refused, case by case. */
  lemma RefusedIff(sources: seq<SourceId>, q: Query)
    ensures LocalRequest(sources, q).NoSource? <==> q.source.None?
    ensures LocalRequest(sources, q).UnknownSource? <==> q.source.Some? && q.source.value !in sources
    ensures LocalRequest(sources, q).CrossSource? <==>
      q.source.Some? && q.source.value in sources && NamesForeign(q.source.value, q)
  {
    if q.source.Some? {
      var id := q.source.value;
      LocalNamesIff(id, q.measures, []);
      LocalNamesIff(id, q.dimensions, []);
      LocalTimesIff(id, q.times, []);
      LocalFiltersIff(id, q.filters, []);
      assert LocalRequest(sources, q).CrossSource? <==> id in sources && NamesForeign(id, q);
    }
  }

  // ---- The composed catalog

  /** A measure or a dimension; `shape` is what composing leaves alone (type, format, values). */
  datatype Member = Member(name: string, description: Option<string>, shape: string)

  datatype Catalog = Catalog(measures: seq<Member>, dimensions: seq<Member>)

  function NamesOf(c: Catalog): set<string> {
    set m | m in c.measures + c.dimensions :: m.name
  }

  function WithSource(description: Option<string>, id: SourceId): string {
    var prefix := "Source " + Label(id) + ".";
    if description.Some? && description.value != "" then prefix + " " + description.value else prefix
  }

  function TextOf(description: Option<string>): string {
    if description.Some? then description.value else ""
  }

  /** A composed description tells its source and the member's own text apart: no two pairs of them share one. */
  lemma DescriptionIsExact(a: Option<string>, x: SourceId, b: Option<string>, y: SourceId)
    ensures WithSource(a, x) == WithSource(b, y) <==> x == y && TextOf(a) == TextOf(b)
  {
    LabelIsPlain(x);
    LabelIsPlain(y);
    LabelIsExact(x, y);
    DescriptionSplits(a, x);
    DescriptionSplits(b, y);
  }

  lemma DescriptionSplits(a: Option<string>, x: SourceId)
    ensures var t := WithSource(a, x);
      && |Label(x)| == 36 && |t| >= 44 && t[7..43] == Label(x)
      && (if TextOf(a) == "" then |t| == 44 else |t| > 45 && t[45..] == TextOf(a))
  {
    LabelIsPlain(x);
    var t := WithSource(a, x);
    assert t[..7] == "Source " && t[7..43] == Label(x);
    if TextOf(a) != "" {
      assert t == "Source " + Label(x) + "." + " " + a.value;
    }
  }

  function QualifiedMember(id: SourceId, m: Member): Member {
    m.(name := Qualified(id, m.name), description := Some(WithSource(m.description, id)))
  }

  function QualifiedMembers(id: SourceId, members: seq<Member>): seq<Member> {
    seq(|members|, i requires 0 <= i < |members| => QualifiedMember(id, members[i]))
  }

  /** The members of all sources, source by source. */
  function ComposedMembers(sources: seq<SourceId>, parts: seq<seq<Member>>): seq<Member>
    requires |sources| == |parts|
  {
    if sources == [] then []
    else
      var last := |sources| - 1;
      ComposedMembers(sources[..last], parts[..last]) + QualifiedMembers(sources[last], parts[last])
  }

  function Measures(locals: seq<Catalog>): seq<seq<Member>> {
    seq(|locals|, i requires 0 <= i < |locals| => locals[i].measures)
  }

  function Dimensions(locals: seq<Catalog>): seq<seq<Member>> {
    seq(|locals|, i requires 0 <= i < |locals| => locals[i].dimensions)
  }

  function Composed(sources: seq<SourceId>, locals: seq<Catalog>): Catalog
    requires |sources| == |locals|
  {
    Catalog(ComposedMembers(sources, Measures(locals)), ComposedMembers(sources, Dimensions(locals)))
  }

  /** What a composed catalog says about one source, in that source's words. */
  function PartOf(id: SourceId, members: seq<Member>): seq<(string, string)> {
    if members == [] then []
    else
      var last := members[|members| - 1];
      var before := PartOf(id, members[..|members| - 1]);
      match LocalMember(id, last.name)
      case Some(name) => before + [(name, last.shape)]
      case None => before
  }

  function Shapes(members: seq<Member>): seq<(string, string)> {
    seq(|members|, i requires 0 <= i < |members| => (members[i].name, members[i].shape))
  }

  lemma PartOfOneMore(id: SourceId, before: seq<Member>, source: SourceId, name: string, m: Member)
    requires m.name == Qualified(source, name)
    ensures PartOf(id, before + [m]) == PartOf(id, before) + if id == source then [(name, m.shape)] else []
  {
    QualifiedIsExact(source, name, id, "");
    assert (before + [m])[..|before|] == before;
  }

  lemma QualifiedSplits(source: SourceId, members: seq<Member>, before: seq<Member>)
    requires members != []
    ensures var n := |members| - 1;
      && before + QualifiedMembers(source, members)
         == (before + QualifiedMembers(source, members[..n])) + [QualifiedMember(source, members[n])]
      && Shapes(members) == Shapes(members[..n]) + [(members[n].name, members[n].shape)]
  {
  }

  lemma {:induction false} PartOfQualified(id: SourceId, before: seq<Member>, source: SourceId, members: seq<Member>)
    ensures PartOf(id, before + QualifiedMembers(source, members)) ==
      PartOf(id, before) + if id == source then Shapes(members) else []
  {
    if members == [] {
      assert before + QualifiedMembers(source, members) == before;
    } else {
      var n := |members| - 1;
      var front := before + QualifiedMembers(source, members[..n]);
      QualifiedSplits(source, members, before);
      PartOfQualified(id, before, source, members[..n]);
      PartOfOneMore(id, front, source, members[n].name, QualifiedMember(source, members[n]));
    }
  }

  lemma {:induction false} OthersHaveNoPart(sources: seq<SourceId>, parts: seq<seq<Member>>, id: SourceId)
    requires |sources| == |parts| && id !in sources
    ensures PartOf(id, ComposedMembers(sources, parts)) == []
  {
    if sources != [] {
      var last := |sources| - 1;
      OthersHaveNoPart(sources[..last], parts[..last], id);
      PartOfQualified(id, ComposedMembers(sources[..last], parts[..last]), sources[last], parts[last]);
    }
  }

  /** Composing loses nothing and mixes nothing: each source's members can be read back off the composed
      catalog, all of them, in order, and no others. */
  lemma {:induction false} EachSourceKeepsItsPart(sources: seq<SourceId>, parts: seq<seq<Member>>, layer: nat)
    requires layer < |sources| == |parts| && Distinct(sources)
    ensures PartOf(sources[layer], ComposedMembers(sources, parts)) == Shapes(parts[layer])
  {
    var last := |sources| - 1;
    if layer == last {
      OthersHaveNoPart(sources[..last], parts[..last], sources[last]);
    } else {
      EachSourceKeepsItsPart(sources[..last], parts[..last], layer);
    }
    PartOfQualified(sources[layer], ComposedMembers(sources[..last], parts[..last]), sources[last], parts[last]);
  }

  ghost predicate HasName(members: seq<Member>, name: string) {
    exists m :: m in members && m.name == name
  }

  ghost predicate HasShape(shapes: seq<(string, string)>, name: string) {
    exists p :: p in shapes && p.0 == name
  }

  lemma {:induction false} PartOfHolds(id: SourceId, members: seq<Member>, name: string)
    ensures HasShape(PartOf(id, members), name) <==> HasName(members, Qualified(id, name))
  {
    if members != [] {
      var n := |members| - 1;
      var last := members[n];
      assert members == members[..n] + [last];
      PartOfHolds(id, members[..n], name);
      LocalIffQualified(id, last.name, name);
    }
  }

  lemma ShapesHold(members: seq<Member>, name: string)
    ensures HasShape(Shapes(members), name) <==> HasName(members, name)
  {
    if HasName(members, name) {
      var i :| 0 <= i < |members| && members[i].name == name;
      assert Shapes(members)[i].0 == name;
    }
  }

  lemma MemberIff(sources: seq<SourceId>, parts: seq<seq<Member>>, layer: nat, name: string)
    requires |sources| == |parts| && Distinct(sources) && layer < |sources|
    ensures HasName(ComposedMembers(sources, parts), Qualified(sources[layer], name)) <==> HasName(parts[layer], name)
  {
    EachSourceKeepsItsPart(sources, parts, layer);
    PartOfHolds(sources[layer], ComposedMembers(sources, parts), name);
    ShapesHold(parts[layer], name);
  }

  /** A qualified name is in the composed catalog exactly when its source has that member. */
  lemma NameIff(sources: seq<SourceId>, locals: seq<Catalog>, layer: nat, name: string)
    requires |sources| == |locals| && Distinct(sources) && layer < |sources|
    ensures Qualified(sources[layer], name) in NamesOf(Composed(sources, locals)) <==> name in NamesOf(locals[layer])
  {
    MemberIff(sources, Measures(locals), layer, name);
    MemberIff(sources, Dimensions(locals), layer, name);
  }

  /** What a query references. */
  function Referenced(q: Query): set<string> {
    (set n | n in q.measures) + (set n | n in q.dimensions)
    + (set t | t in q.times :: t.dimension) + (set f | f in q.filters :: f.member)
  }

  /** Does a query stay inside a catalog's vocabulary? */
  predicate Governed(c: Catalog, q: Query) {
    Referenced(q) - NamesOf(c) == {}
  }

  lemma ReferencedAreMembers(q: Query)
    ensures forall n :: n in Referenced(q) <==> n in Members(q)
  {
    forall n ensures n in TimeNames(q.times) <==> exists t :: t in q.times && t.dimension == n {
      if n in TimeNames(q.times) {
        var i :| 0 <= i < |q.times| && TimeNames(q.times)[i] == n;
        assert q.times[i] in q.times;
      }
      if t :| t in q.times && t.dimension == n {
        var i :| 0 <= i < |q.times| && q.times[i] == t;
        assert TimeNames(q.times)[i] == n;
      }
    }
    forall n ensures n in FilterNames(q.filters) <==> exists f :: f in q.filters && f.member == n {
      if n in FilterNames(q.filters) {
        var i :| 0 <= i < |q.filters| && FilterNames(q.filters)[i] == n;
        assert q.filters[i] in q.filters;
      }
      if f :| f in q.filters && f.member == n {
        var i :| 0 <= i < |q.filters| && q.filters[i] == f;
        assert FilterNames(q.filters)[i] == n;
      }
    }
  }

  lemma GovernedNames(c: Catalog, q: Query)
    ensures Governed(c, q) <==> forall n :: n in Members(q) ==> n in NamesOf(c)
  {
    ReferencedAreMembers(q);
    if Governed(c, q) {
      forall n | n in Members(q) ensures n in NamesOf(c) {
        assert n in Referenced(q) && n !in Referenced(q) - NamesOf(c);
      }
    }
  }

  lemma MembersOfRequalified(id: SourceId, q: Query)
    ensures Members(Requalified(id, q)) == QualifiedAll(id, Members(q))
  {
  }

  /** The composed catalog governs a query exactly when the layer it is routed to governs what it is sent. */
  lemma GovernedIff(sources: seq<SourceId>, locals: seq<Catalog>, q: Query)
    requires |sources| == |locals| && Distinct(sources) && LocalRequest(sources, q).Routed?
    ensures var routed := LocalRequest(sources, q);
      && (Governed(Composed(sources, locals), q) <==> Governed(locals[routed.layer], routed.request))
      && (Governed(Composed(sources, locals), q) <==> forall n :: n in Members(q) ==> n in NamesOf(Composed(sources, locals)))
  {
    GovernedNames(Composed(sources, locals), q);
    var Routed(layer, local) := LocalRequest(sources, q);
    RoutedIff(sources, q, layer, local);
    var id := sources[layer];
    MembersOfRequalified(id, local);
    GovernedNames(locals[layer], local);
    forall n | n in Members(local)
      ensures n in NamesOf(locals[layer]) <==> Qualified(id, n) in NamesOf(Composed(sources, locals))
    {
      NameIff(sources, locals, layer, n);
    }
    forall n | n in Members(local) ensures Qualified(id, n) in Members(q) {
      var i :| 0 <= i < |Members(local)| && Members(local)[i] == n;
      assert Members(q)[i] == Qualified(id, n);
    }
  }

  // ---- The query tool's own check

  /** The text before the first `::`, or all of it. */
  function Before(s: string): string {
    if |s| < 2 then s
    else if s[..2] == "::" then ""
    else [s[0]] + Before(s[1..])
  }

  predicate HasColons(s: string) {
    exists i :: 0 <= i < |s| - 1 && s[i] == ':' && s[i + 1] == ':'
  }

  /** The sources a catalog's names mention. */
  function KnownSources(c: Catalog): set<string> {
    set n | n in NamesOf(c) && HasColons(n) :: Before(n)
  }

  datatype Scope = InScope | Foreign | Unavailable

  predicate NamesForeign(id: SourceId, q: Query) {
    exists n :: n in Members(q) && !BelongsTo(id, n)
  }

  /** The check a query tool makes before asking the layer. */
  function ScopeOf(c: Catalog, id: SourceId, q: Query): Scope {
    if NamesForeign(id, q) then Foreign
    else if Label(id) in KnownSources(c) then InScope
    else Unavailable
  }

  lemma {:induction false} BeforeStopsAtColons(head: string, rest: string)
    requires NoColon(head)
    ensures Before(head + "::" + rest) == head
  {
    var s := head + "::" + rest;
    if head == "" {
      assert s[..2] == "::";
    } else {
      assert s[..2][0] == head[0];
      assert s[1..] == head[1..] + "::" + rest;
      BeforeStopsAtColons(head[1..], rest);
    }
  }

  lemma SourceOfQualified(id: SourceId, name: string)
    ensures HasColons(Qualified(id, name)) && Before(Qualified(id, name)) == Label(id)
  {
    LabelIsPlain(id);
    BeforeStopsAtColons(Label(id), name);
    var s := Qualified(id, name);
    assert s == Label(id) + "::" + name;
    assert s[36] == ':' && s[37] == ':';
  }

  lemma {:induction false} EveryNameIsQualified(sources: seq<SourceId>, parts: seq<seq<Member>>, m: Member) returns (k: nat, own: Member)
    requires |sources| == |parts| && m in ComposedMembers(sources, parts)
    ensures k < |sources| && own in parts[k] && m.name == Qualified(sources[k], own.name)
  {
    var last := |sources| - 1;
    if m in QualifiedMembers(sources[last], parts[last]) {
      var i :| 0 <= i < |parts[last]| && QualifiedMembers(sources[last], parts[last])[i] == m;
      k, own := last, parts[last][i];
    } else {
      k, own := EveryNameIsQualified(sources[..last], parts[..last], m);
    }
  }

  /** A source is known exactly when it is one of the layer's and its catalog names anything at all. */
  lemma KnownIff(sources: seq<SourceId>, locals: seq<Catalog>, id: SourceId)
    requires |sources| == |locals| && Distinct(sources)
    ensures Label(id) in KnownSources(Composed(sources, locals)) <==>
      id in sources && NamesOf(locals[IndexOf(sources, id)]) != {}
  {
    var whole := Composed(sources, locals);
    if Label(id) in KnownSources(whole) {
      var m :| m in whole.measures + whole.dimensions && HasColons(m.name) && Before(m.name) == Label(id);
      var k, own := OwnerOf(sources, locals, m);
      SourceOfQualified(sources[k], own.name);
      LabelIsExact(sources[k], id);
      assert own.name in NamesOf(locals[k]);
    }
    if id in sources && NamesOf(locals[IndexOf(sources, id)]) != {} {
      var k := IndexOf(sources, id);
      var name :| name in NamesOf(locals[k]);
      NameIff(sources, locals, k, name);
      SourceOfQualified(id, name);
    }
  }

  lemma OwnerOf(sources: seq<SourceId>, locals: seq<Catalog>, m: Member) returns (k: nat, own: Member)
    requires |sources| == |locals| && m in Composed(sources, locals).measures + Composed(sources, locals).dimensions
    ensures k < |sources| && own in locals[k].measures + locals[k].dimensions && m.name == Qualified(sources[k], own.name)
  {
    if m in ComposedMembers(sources, Measures(locals)) {
      k, own := EveryNameIsQualified(sources, Measures(locals), m);
    } else {
      k, own := EveryNameIsQualified(sources, Dimensions(locals), m);
    }
  }

  /** The tool and the layer agree: a query in scope is always routed, to its own source; and a query the
      layer would route is turned away exactly when its source's catalog is empty. */
  lemma InScopeIff(sources: seq<SourceId>, locals: seq<Catalog>, q: Query)
    requires |sources| == |locals| && Distinct(sources) && q.source.Some?
    ensures var routed := LocalRequest(sources, q);
      ScopeOf(Composed(sources, locals), q.source.value, q).InScope? <==>
        routed.Routed? && NamesOf(locals[routed.layer]) != {}
  {
    var id := q.source.value;
    KnownIff(sources, locals, id);
    RefusedIff(sources, q);
  }

  /** What reaches a layer from a query in scope is that query: re-qualifying it gives the query back. */
  lemma InScopeIsFaithful(sources: seq<SourceId>, locals: seq<Catalog>, q: Query)
    requires |sources| == |locals| && Distinct(sources) && q.source.Some?
    requires ScopeOf(Composed(sources, locals), q.source.value, q).InScope?
    ensures var routed := LocalRequest(sources, q);
      && routed.Routed? && sources[routed.layer] == q.source.value
      && Requalified(q.source.value, routed.request) == q
  {
    InScopeIff(sources, locals, q);
    var Routed(layer, local) := LocalRequest(sources, q);
    RoutedIff(sources, q, layer, local);
  }

  // ---- The layer and the tool

  /** What a source answers: rows, or a refusal of its own. */
  datatype Answer = Rows(rows: seq<string>) | Declined

  datatype Reply = Found(rows: seq<string>) | SourceMissing | OutOfScope(scope: Scope) | LayerDeclined

  class SourceScopedSemanticLayer {
    const sources: seq<SourceId>
    var catalog: Option<Catalog>
    /** The source catalogs the memoised one was composed from. */
    ghost var locals: seq<Catalog>

    ghost predicate Valid()
      reads this
    {
      && Distinct(sources)
      && (catalog.Some? ==> |locals| == |sources| && catalog.value == Composed(sources, locals))
    }

    constructor (sources: seq<SourceId>)
      requires Distinct(sources)
      ensures Valid() && this.sources == sources && catalog == None
    {
      this.sources := sources;
      catalog := None;
      locals := [];
    }

    /** The composed catalog, built from the sources' answers the first time and kept from then on. */
    method ComposedCatalog(answers: seq<Catalog>) returns (composed: Catalog)
      requires Valid() && |answers| == |sources|
      modifies this
      ensures Valid() && catalog == Some(composed)
      ensures locals == if old(catalog).Some? then old(locals) else answers
      ensures old(catalog).Some? ==> composed == old(catalog).value
    {
      if catalog.Some? {
        return catalog.value;
      }
      var measures, dimensions := [], [];
      for k := 0 to |sources|
        invariant catalog == old(catalog)
        invariant measures == ComposedMembers(sources[..k], Measures(answers)[..k])
        invariant dimensions == ComposedMembers(sources[..k], Dimensions(answers)[..k])
      {
        NextComposed(sources, Measures(answers), k);
        NextComposed(sources, Dimensions(answers), k);
        measures := measures + QualifiedMembers(sources[k], answers[k].measures);
        dimensions := dimensions + QualifiedMembers(sources[k], answers[k].dimensions);
      }
      assert sources[..|sources|] == sources;
      assert Measures(answers)[..|sources|] == Measures(answers) && Dimensions(answers)[..|sources|] == Dimensions(answers);
      composed := Catalog(measures, dimensions);
      catalog := Some(composed);
      locals := answers;
    }
  }

  lemma NextComposed(sources: seq<SourceId>, parts: seq<seq<Member>>, k: nat)
    requires k < |sources| == |parts|
    ensures ComposedMembers(sources[..k + 1], parts[..k + 1]) ==
      ComposedMembers(sources[..k], parts[..k]) + QualifiedMembers(sources[k], parts[k])
  {
    assert sources[..k + 1][..k] == sources[..k] && parts[..k + 1][..k] == parts[..k];
  }

  class DataQueryTool {
    const layer: SourceScopedSemanticLayer
    var lastQuery: Option<Query>
    var lastRows: seq<string>

    constructor (layer: SourceScopedSemanticLayer)
      ensures this.layer == layer && lastQuery == None && lastRows == []
    {
      this.layer := layer;
      lastQuery := None;
      lastRows := [];
    }

    /** Answers a query in scope with what its own source says to the localised query, and asks no other;
        refuses every other query and remembers nothing of it. The catalog is asked for only when every name
        is of the selected source. `answers` and `ask` are the sources: their
        catalogs and how each answers a query. */
    method Invoke(q: Query, answers: seq<Catalog>, ask: seq<Query -> Answer>) returns (reply: Reply)
      requires layer.Valid() && |answers| == |ask| == |layer.sources|
      modifies this, layer
      ensures layer.Valid()
      ensures q.source == None ==> reply == SourceMissing && layer.catalog == old(layer.catalog)
      ensures q.source.Some? && NamesForeign(q.source.value, q) ==>
        reply == OutOfScope(Foreign) && layer.catalog == old(layer.catalog)
      ensures q.source.Some? && !NamesForeign(q.source.value, q) ==>
        layer.catalog.Some? && (old(layer.catalog).Some? ==> layer.catalog == old(layer.catalog))
      ensures q.source.Some? && !NamesForeign(q.source.value, q) ==>
        var scope := ScopeOf(layer.catalog.value, q.source.value, q);
        if !scope.InScope? then reply == OutOfScope(scope)
        else
          exists k, local ::
            && 0 <= k < |ask| && layer.sources[k] == q.source.value && q == Requalified(q.source.value, local)
            && reply == match ask[k](local) { case Rows(rows) => Found(rows) case Declined => LayerDeclined }
      ensures lastQuery == (if reply.Found? then Some(q) else old(lastQuery))
      ensures lastRows == (if reply.Found? then reply.rows else old(lastRows))
    {
      if q.source.None? {
        return SourceMissing;
      }
      if NamesForeign(q.source.value, q) {
        return OutOfScope(Foreign);
      }
      var composed := layer.ComposedCatalog(answers);
      var scope := ScopeOf(composed, q.source.value, q);
      if !scope.InScope? {
        return OutOfScope(scope);
      }
      InScopeIsFaithful(layer.sources, layer.locals, q);
      var routed := LocalRequest(layer.sources, q);
      match ask[routed.layer](routed.request) {
        case Declined =>
          reply := LayerDeclined;
        case Rows(rows) =>
          lastQuery := Some(q);
          lastRows := rows;
          reply := Found(rows);
      }
    }
  }
}
