/** RewriteMap of rules/src/desugarer.cpp: which bytes of the generated text come from which
    bytes of the source. */
module RewriteMap {
  import opened Wrappers
  import opened ScanTracking

  datatype SegmentKind = Copied | SyntheticRule | SyntheticArrow

  datatype Segment = Segment(generated: Span, original: Span, kind: SegmentKind) {
    predicate Holds(offset: nat) { generated.begin <= offset < generated.end }

    function Mapped(offset: nat): Span
      requires Holds(offset)
    {
      if kind != Copied then original
      else
        var mapped := original.begin + (offset - generated.begin);
        Span(mapped, mapped)
    }

    predicate Meets(span: Span) { Max(span.begin, generated.begin) < Min(span.end, generated.end) }

    /** What the part of `span` inside this segment comes from. */
    function Part(span: Span): Span
      requires Meets(span)
    {
      if kind != Copied then original
      else
        var begin, end := Max(span.begin, generated.begin), Min(span.end, generated.end);
        var at := original.begin + (begin - generated.begin);
        Span(at, at + (end - begin))
    }
  }

  function Max(a: nat, b: nat): nat { if a < b then b else a }

  function Min(a: nat, b: nat): nat { if a < b then a else b }

  datatype Map = Map(segments: seq<Segment>, generatedSize: nat, originalSize: nat) {
    predicate Valid() { if segments == [] then generatedSize == originalSize else Tiles(segments, generatedSize, originalSize) }
  }

  function Identity(size: nat): (m: Map)
    ensures m.Valid() && m.generatedSize == size
  {
    Map([], size, size)
  }

  predicate Fits(s: Segment, generatedSize: nat, originalSize: nat) {
    && s.generated.begin < s.generated.end <= generatedSize
    && s.original.begin <= s.original.end <= originalSize
    && (s.kind == Copied ==> s.generated.Size() == s.original.Size())
  }

  /** Non-empty segments, one directly after the other. */
  predicate Chained(segments: seq<Segment>, end: nat, originalSize: nat) {
    && (forall i :: 0 <= i < |segments| ==> Fits(segments[i], end, originalSize))
    && (forall i :: 0 < i < |segments| ==> segments[i].generated.begin == segments[i - 1].generated.end)
    && (if segments == [] then end == 0
        else segments[0].generated.begin == 0 && segments[|segments| - 1].generated.end == end)
  }

  /** The segments cover the generated text without gap or overlap. */
  predicate Tiles(segments: seq<Segment>, generatedSize: nat, originalSize: nat) {
    segments != [] && Chained(segments, generatedSize, originalSize)
  }

  /** A map is created for exactly the lists that tile the generated text. */
  method Create(segments: seq<Segment>, generatedSize: nat, originalSize: nat) returns (m: Option<Map>)
    ensures m.Some? <==> Tiles(segments, generatedSize, originalSize)
    ensures m.Some? ==> m.value == Map(segments, generatedSize, originalSize)
  {
    if segments == [] {
      return None;
    }
    var expected := 0;
    for i := 0 to |segments|
      invariant if i == 0 then expected == 0 else expected == segments[i - 1].generated.end
      invariant i > 0 ==> segments[0].generated.begin == 0
      invariant forall j :: 0 <= j < i ==> Fits(segments[j], generatedSize, originalSize)
      invariant forall j :: 0 < j < i ==> segments[j].generated.begin == segments[j - 1].generated.end
    {
      if segments[i].generated.begin != expected || !Fits(segments[i], generatedSize, originalSize) {
        return None;
      }
      expected := segments[i].generated.end;
    }
    if expected != generatedSize {
      return None;
    }
    return Some(Map(segments, generatedSize, originalSize));
  }

  /** Later segments begin where earlier ones have ended. */
  lemma {:induction false} InOrder(segments: seq<Segment>, end: nat, originalSize: nat, i: nat, j: nat)
    requires Chained(segments, end, originalSize) && i < j < |segments|
    ensures segments[i].generated.end <= segments[j].generated.begin
    decreases j
  {
    if i + 1 < j {
      InOrder(segments, end, originalSize, i, j - 1);
    }
    assert Fits(segments[j - 1], end, originalSize);
  }

  // --------------------------------------------------------------- positions

  /** The linear search: the first segment that holds an offset. */
  function Owner(segments: seq<Segment>, offset: nat): (s: Option<Segment>)
    ensures s.Some? ==> s.value.Holds(offset)
  {
    if segments == [] then None
    else if segments[0].Holds(offset) then Some(segments[0])
    else Owner(segments[1..], offset)
  }

  function Position(m: Map, offset: nat): Option<Span> {
    if offset > m.generatedSize then None
    else if m.segments == [] then if m.generatedSize != m.originalSize then None else Some(Span(offset, offset))
    else if offset == m.generatedSize then Some(Span(m.originalSize, m.originalSize))
    else
      var s := Owner(m.segments, offset);
      if s.None? then None else Some(s.value.Mapped(offset))
  }

  lemma {:induction false} OwnerIs(segments: seq<Segment>, offset: nat, i: nat)
    requires i < |segments| && segments[i].Holds(offset)
    requires forall j :: 0 <= j < i ==> !segments[j].Holds(offset)
    ensures Owner(segments, offset) == Some(segments[i])
  {
    if i > 0 {
      assert !segments[0].Holds(offset);
      OwnerIs(segments[1..], offset, i - 1);
    }
  }

  /** The index of the first segment that begins after `offset`. */
  method UpperBound(segments: seq<Segment>, end: nat, originalSize: nat, offset: nat) returns (k: nat)
    requires Chained(segments, end, originalSize)
    ensures k <= |segments|
    ensures forall i :: 0 <= i < k ==> segments[i].generated.begin <= offset
    ensures forall i :: k <= i < |segments| ==> offset < segments[i].generated.begin
  {
    k := 0;
    var high := |segments|;
    while k < high
      invariant k <= high <= |segments|
      invariant forall i :: 0 <= i < k ==> segments[i].generated.begin <= offset
      invariant forall i :: high <= i < |segments| ==> offset < segments[i].generated.begin
    {
      var mid := (k + high) / 2;
      if offset < segments[mid].generated.begin {
        forall i | mid < i < high ensures offset < segments[i].generated.begin {
          InOrder(segments, end, originalSize, mid, i);
          assert Fits(segments[mid], end, originalSize);
        }
        high := mid;
      } else {
        forall i | k <= i < mid ensures segments[i].generated.begin <= offset {
          InOrder(segments, end, originalSize, i, mid);
          assert Fits(segments[i], end, originalSize);
        }
        k := mid + 1;
      }
    }
  }

  /** The segment found by binary search is the one linear search finds, and there is one for
      every generated byte. */
  method MapGeneratedPosition(m: Map, offset: nat) returns (r: Option<Span>)
    requires m.Valid()
    ensures r == Position(m, offset)
    ensures r.Some? <==> offset <= m.generatedSize
  {
    if offset > m.generatedSize {
      return None;
    }
    if m.segments == [] {
      return if m.generatedSize != m.originalSize then None else Some(Span(offset, offset));
    }
    if offset == m.generatedSize {
      return Some(Span(m.originalSize, m.originalSize));
    }
    var next := UpperBound(m.segments, m.generatedSize, m.originalSize, offset);
    if next == 0 {
      assert false;
      return None;
    }
    var segment := m.segments[next - 1];
    assert next < |m.segments| ==> offset < m.segments[next].generated.begin == segment.generated.end;
    if offset >= segment.generated.end {
      assert false;
      return None;
    }
    forall j | 0 <= j < next - 1 ensures !m.segments[j].Holds(offset) {
      InOrder(m.segments, m.generatedSize, m.originalSize, j, next - 1);
    }
    OwnerIs(m.segments, offset, next - 1);
    return Some(segment.Mapped(offset));
  }

  // ------------------------------------------------------------------- spans

  predicate Within(inner: Span, outer: Span) { outer.begin <= inner.begin && inner.end <= outer.end }

  function Join(a: Option<Span>, b: Span): Span {
    if a.None? then b else Span(Min(a.value.begin, b.begin), Max(a.value.end, b.end))
  }

  /** The smallest span around everything the bytes of `span` come from. */
  function Hull(segments: seq<Segment>, span: Span): Option<Span> {
    if segments == [] then None
    else
      var init, s := segments[..|segments| - 1], segments[|segments| - 1];
      if s.Meets(span) then Some(Join(Hull(init, span), s.Part(span))) else Hull(init, span)
  }

  function SpanOrigin(m: Map, span: Span): Option<Span> {
    if span.begin > span.end || span.end > m.generatedSize then None
    else if span.begin == span.end then Position(m, span.begin)
    else if m.segments == [] then if m.generatedSize != m.originalSize then None else Some(span)
    else Hull(m.segments, span)
  }

  method MapGeneratedSpan(m: Map, span: Span) returns (r: Option<Span>)
    requires m.Valid()
    ensures r == SpanOrigin(m, span)
  {
    if span.begin > span.end || span.end > m.generatedSize {
      return None;
    }
    if span.begin == span.end {
      r := MapGeneratedPosition(m, span.begin);
      return;
    }
    if m.segments == [] {
      return if m.generatedSize != m.originalSize then None else Some(span);
    }
    r := None;
    for i := 0 to |m.segments|
      invariant r == Hull(m.segments[..i], span)
    {
      var segment := m.segments[i];
      assert m.segments[..i + 1][..i] == m.segments[..i];
      if segment.Meets(span) {
        r := Some(Join(r, segment.Part(span)));
      }
    }
    assert m.segments[..|m.segments|] == m.segments;
  }

  /** A span that one part attains and no part exceeds is the hull. */
  lemma {:induction false} HullExact(segments: seq<Segment>, span: Span, i: nat, hull: Span)
    requires i < |segments| && segments[i].Meets(span) && segments[i].Part(span) == hull
    requires forall s :: s in segments && s.Meets(span) ==> Within(s.Part(span), hull)
    ensures Hull(segments, span) == Some(hull)
  {
    var init, s := segments[..|segments| - 1], segments[|segments| - 1];
    if i < |init| {
      assert init[i] == segments[i];
      HullExact(init, span, i, hull);
    } else {
      HullWithin(init, span, hull);
    }
  }

  lemma {:induction false} HullWithin(segments: seq<Segment>, span: Span, hull: Span)
    requires forall s :: s in segments && s.Meets(span) ==> Within(s.Part(span), hull)
    ensures Hull(segments, span).Some? ==> Within(Hull(segments, span).value, hull)
  {
    if segments != [] {
      HullWithin(segments[..|segments| - 1], span, hull);
    }
  }
}
