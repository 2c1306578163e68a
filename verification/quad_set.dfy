/** The track quad set: an ordered list of quads read from a "quads" document,
    where a quad's corner may be written as a literal point or as a vertex of
    a quad loaded before it, together with the bounding box of all vertices. */
module QuadSets {
  import opened Geometry
  import opened XmlNode
  import opened StringUtils

  const RootTag := "quads"
  const QuadTag := "quad"

  /** Start values of the bounding box before any vertex is folded in. */
  const MinSentinel := Vec3(99999.0, 99999.0, 99999.0)
  const MaxSentinel := Vec3(-99999.0, -99999.0, -99999.0)

  /** Four corners and a visibility flag; `Vertex(i)` is the quad's
      indexing operator. */
  datatype Quad = Quad(p0: Vec3, p1: Vec3, p2: Vec3, p3: Vec3, invisible: bool) {
    function Vertex(i: nat): (v: Vec3)
      requires i < 4
      ensures v == [p0, p1, p2, p3][i]
    {
      if i == 0 then p0 else if i == 1 then p1 else if i == 2 then p2 else p3
    }
  }

  // ---------------------------------------------------------------------------
  // Point specifications

  /** How a corner attribute is read: as a literal "x,y,z" point, or as
      "n:p", vertex `vertex` of the quad at position `quad`. */
  datatype PointSpec = Literal | Reference(quad: int, vertex: int)

  /** The colon rule: the text is a reference exactly when its first ':'
      stands at a position greater than 0; a leading ':' or no ':' at all
      means a literal. Both numbers are read with `atoi`, from the text
      before the first ':' and from the field after it. */
  function ParsePointSpec(s: string): PointSpec
  {
    var pos := FirstColon(s);
    if pos > 0 then Reference(Atoi(s[..pos]), Atoi(FieldAt(s[pos + 1..])))
    else Literal
  }

  /** The colon rule, both ways: a literal exactly when the text holds no
      ':' or starts with one. */
  lemma ColonRule(s: string)
    ensures ParsePointSpec(s).Literal? <==> ':' !in s || s[0] == ':'
  {
    FirstColonSpec(s);
  }

  /** The text "n:p" that refers to vertex `p` of quad `n`. */
  function ReferenceText(n: nat, p: nat): string
  {
    DecimalText(n) + ":" + DecimalText(p)
  }

  /** A written reference, followed by nothing or by further ':'-separated
      fields, parses back to the quad and vertex it names. */
  lemma ParseReferenceText(n: nat, p: nat, tail: string)
    requires tail == [] || tail[0] == ':'
    ensures var s := ReferenceText(n, p) + tail;
      FirstColon(s) == |DecimalText(n)| < |s| - 1 &&
      ParsePointSpec(s) == Reference(n, p)
  {
    var dn, dp := DecimalText(n), DecimalText(p);
    ReferenceTextSplits(dn, dp, tail);
    FieldOfDigits(dp, tail);
    AtoiOfDecimalText(n);
    AtoiOfDecimalText(p);
  }

  /** Digits, a ':', digits and a tail split at that ':'. */
  lemma ReferenceTextSplits(dn: string, dp: string, tail: string)
    requires AllDigits(dn) && dn != [] && dp != []
    ensures var s := dn + ":" + dp + tail;
      FirstColon(s) == |dn| && s[..|dn|] == dn && s[|dn| + 1..] == dp + tail
  {
    var s := dn + ":" + dp + tail;
    DigitsHaveNoColon(dn);
    FirstColonAt(s, |dn|);
    assert s[..|dn|] == dn;
    assert s[|dn| + 1..] == dp + tail;
  }

  /** A corner text can be resolved against `count` loaded quads: a
      reference must have a field after its first ':' and name an existing
      quad and one of its four vertices. The loader checks none of this, so
      it is demanded of its input. */
  predicate ReferenceOk(count: nat, s: string)
  {
    match ParsePointSpec(s)
    case Literal => true
    case Reference(n, p) => FirstColon(s) < |s| - 1 && 0 <= n < count && 0 <= p < 4
  }

  /** QuadSet::getPoint: the point the attribute `attr` of `node` denotes,
      given the quads loaded so far. Text without a colon, or with a colon
      in front, goes to the literal reader; otherwise the point is a vertex
      of an earlier quad. */
  function ResolvePoint(quads: seq<Quad>, node: Node, attr: string, r: Readers): (v: Vec3)
    requires ReferenceOk(|quads|, Attribute(node, attr))
    ensures v == r.vector(node, attr) ||
      exists k, i :: 0 <= k < |quads| && 0 <= i < 4 && v == quads[k].Vertex(i)
  {
    match ParsePointSpec(Attribute(node, attr))
    case Literal => r.vector(node, attr)
    case Reference(n, p) => quads[n].Vertex(p)
  }

  /** Text without a colon, or with one in front, is handed to the literal
      point reader. */
  lemma ResolveLiteral(quads: seq<Quad>, node: Node, attr: string, r: Readers)
    requires var s := Attribute(node, attr); ':' !in s || s[0] == ':'
    ensures ReferenceOk(|quads|, Attribute(node, attr))
    ensures ResolvePoint(quads, node, attr, r) == r.vector(node, attr)
  {
    ColonRule(Attribute(node, attr));
  }

  /** Text whose first colon stands at a position k > 0 yields vertex
      `atoi` of the field after the colon, of the quad numbered `atoi` of the
      text before it; both numbers are in range. */
  lemma ResolveReference(quads: seq<Quad>, node: Node, attr: string, r: Readers)
    requires ReferenceOk(|quads|, Attribute(node, attr))
    requires var s := Attribute(node, attr); ':' in s && s[0] != ':'
    ensures var s := Attribute(node, attr); var k := FirstColon(s);
      0 < k < |s| - 1 && s[k] == ':' && ':' !in s[..k] &&
      0 <= Atoi(s[..k]) < |quads| && 0 <= Atoi(FieldAt(s[k + 1..])) < 4 &&
      ResolvePoint(quads, node, attr, r) == quads[Atoi(s[..k])].Vertex(Atoi(FieldAt(s[k + 1..])))
  {
    FirstColonSpec(Attribute(node, attr));
  }

  /** Resolving the text ReferenceText(n, p) yields vertex `p` of quad `n`. */
  lemma ResolveReferenceText(quads: seq<Quad>, node: Node, attr: string, n: nat, p: nat, r: Readers)
    requires n < |quads| && p < 4
    requires Attribute(node, attr) == ReferenceText(n, p)
    ensures ReferenceOk(|quads|, Attribute(node, attr))
    ensures ResolvePoint(quads, node, attr, r) == quads[n].Vertex(p)
  {
    ParseReferenceText(n, p, []);
    assert ReferenceText(n, p) + [] == ReferenceText(n, p);
  }

  /** A concrete reference: when vertex 2 of quad 0 is (1,1,0), the
      attribute text "0:2" resolves to (1,1,0). */
  lemma ResolveExample(quads: seq<Quad>, node: Node, r: Readers)
    requires |quads| > 0 && quads[0].p2 == Vec3(1.0, 1.0, 0.0)
    requires Attribute(node, "p0") == "0:2"
    ensures ReferenceOk(|quads|, "0:2")
    ensures ResolvePoint(quads, node, "p0", r) == Vec3(1.0, 1.0, 0.0)
  {
    assert ReferenceText(0, 2) == "0:2";
    ResolveReferenceText(quads, node, "p0", 0, 2, r);
  }

  // ---------------------------------------------------------------------------
  // The specification of a load

  /** Every corner of `node` can be resolved against `count` quads. */
  predicate NodeReferencesOk(count: nat, node: Node)
  {
    ReferenceOk(count, Attribute(node, "p0")) && ReferenceOk(count, Attribute(node, "p1")) &&
    ReferenceOk(count, Attribute(node, "p2")) && ReferenceOk(count, Attribute(node, "p3"))
  }

  /** The quad built from a "quad" element, its corners resolved against the
      quads loaded before it. */
  function BuildQuad(prior: seq<Quad>, node: Node, r: Readers): (q: Quad)
    requires NodeReferencesOk(|prior|, node)
    ensures q.invisible ==> "invisible" in node.attributes
  {
    Quad(ResolvePoint(prior, node, "p0", r), ResolvePoint(prior, node, "p1", r),
         ResolvePoint(prior, node, "p2", r), ResolvePoint(prior, node, "p3", r),
         ReadFlag(node, "invisible", false, r))
  }

  /** The children named "quad", in document order. */
  function QuadNodes(ns: seq<Node>): (qs: seq<Node>)
    ensures |qs| <= |ns|
    ensures forall k :: 0 <= k < |qs| ==> qs[k].name == QuadTag
  {
    if ns == [] then []
    else
      var init := QuadNodes(ns[..|ns| - 1]);
      if ns[|ns| - 1].name == QuadTag then init + [ns[|ns| - 1]] else init
  }

  /** A child is selected exactly when it is among the children and is
      named "quad". */
  lemma {:induction false} QuadNodesMembers(ns: seq<Node>, x: Node)
    ensures x in QuadNodes(ns) <==> x in ns && x.name == QuadTag
  {
    if ns != [] {
      var init, last := ns[..|ns| - 1], ns[|ns| - 1];
      QuadNodesMembers(init, x);
      assert ns == init + [last];
    }
  }

  /** Makes the quad of a "quad" child from the quads loaded before it, or
      fails with None where the source's behaviour is undefined. */
  type Builder = (seq<Quad>, Node) -> Option<Quad>

  /** The builder of QuadSet::load: BuildQuad, defined when every corner
      of the child can be resolved. */
  function QuadBuilder(r: Readers): Builder
  {
    (prior: seq<Quad>, node: Node) =>
      if NodeReferencesOk(|prior|, node) then Some(BuildQuad(prior, node, r)) else None
  }

  /** The walk of QuadSet::load over the children `ns`, starting from the
      quads `q`: a child named "quad" appends the quad `build` makes of it,
      every other child is skipped. None when some child cannot be built. */
  function LoadNodes(q: seq<Quad>, ns: seq<Node>, build: Builder): (res: Option<seq<Quad>>)
    ensures res.Some? ==> |res.value| == |q| + |QuadNodes(ns)| && res.value[..|q|] == q
    decreases |ns|
  {
    if ns == [] then Some(q)
    else
      match LoadNodes(q, ns[..|ns| - 1], build)
      case None => None
      case Some(prev) =>
        var last := ns[|ns| - 1];
        if last.name != QuadTag then Some(prev)
        else
          match build(prev, last)
          case None => None
          case Some(quad) =>
            assert (prev + [quad])[..|q|] == prev[..|q|];
            Some(prev + [quad])
  }

  /** Processing further children never changes the quads already stored,
      and a walk that succeeds succeeded on every prefix of the children. */
  lemma {:induction false} LoadNodesExtends(q: seq<Quad>, ns: seq<Node>, ms: seq<Node>, build: Builder)
    requires LoadNodes(q, ns + ms, build).Some?
    ensures LoadNodes(q, ns, build).Some?
    ensures LoadNodes(q, ns, build).value <= LoadNodes(q, ns + ms, build).value
    decreases |ms|
  {
    if ms == [] {
      assert ns + ms == ns;
    } else {
      var init := ms[..|ms| - 1];
      assert (ns + ms)[..|ns + ms| - 1] == ns + init;
      LoadNodesExtends(q, ns, init, build);
    }
  }

  /** The quads appear in document order: the quad at position |q|+j is the
      one `build` makes of the j-th "quad" child from the quads before it. */
  lemma {:induction false} LoadNodesInOrder(q: seq<Quad>, ns: seq<Node>, build: Builder, j: nat)
    requires LoadNodes(q, ns, build).Some? && j < |QuadNodes(ns)|
    ensures var res := LoadNodes(q, ns, build).value;
      build(res[..|q| + j], QuadNodes(ns)[j]) == Some(res[|q| + j])
    decreases |ns|
  {
    var init, last := ns[..|ns| - 1], ns[|ns| - 1];
    var prev := LoadNodes(q, init, build).value;
    var res := LoadNodes(q, ns, build).value;
    if last.name == QuadTag {
      assert QuadNodes(ns) == QuadNodes(init) + [last];
      assert res == prev + [build(prev, last).value];
      if j < |QuadNodes(init)| {
        LoadNodesInOrder(q, init, build, j);
        assert res[..|q| + j] == prev[..|q| + j];
      } else {
        assert res[..|q| + j] == prev;
      }
    } else {
      LoadNodesInOrder(q, init, build, j);
    }
  }

  /** Walking one more child continues from where the walk over `ns`
      stopped, as if walking that child alone. */
  lemma LoadNodesSnoc(q: seq<Quad>, ns: seq<Node>, n: Node, build: Builder)
    requires LoadNodes(q, ns, build).Some?
    ensures LoadNodes(LoadNodes(q, ns, build).value, [n], build) == LoadNodes(q, ns + [n], build)
  {
    assert (ns + [n])[..|ns|] == ns;
    assert [n][..0] == [];
  }

  /** A walk over `ns` that succeeds passes through every prefix: the walk
      up to child i+1 continues the walk up to child i with child i alone. */
  lemma LoadNodesNext(q: seq<Quad>, ns: seq<Node>, i: nat, build: Builder)
    requires i < |ns| && LoadNodes(q, ns, build).Some?
    ensures LoadNodes(q, ns[..i], build).Some?
    ensures LoadNodes(LoadNodes(q, ns[..i], build).value, [ns[i]], build) == LoadNodes(q, ns[..i + 1], build)
    ensures LoadNodes(q, ns[..i + 1], build).Some?
  {
    var pre, next := ns[..i], ns[..i + 1];
    assert next + ns[i + 1..] == ns;
    LoadNodesExtends(q, next, ns[i + 1..], build);
    assert next == pre + [ns[i]];
    LoadNodesExtends(q, pre, [ns[i]], build);
    LoadNodesSnoc(q, pre, ns[i], build);
  }

  /** Every reference in the j-th of the "quad" children `qs` names one of
      the `count` quads loaded before the walk or one built from the j
      children before it. The loader checks none of this. */
  predicate BackwardReferences(count: nat, qs: seq<Node>)
  {
    forall j :: 0 <= j < |qs| ==> NodeReferencesOk(count + j, qs[j])
  }

  /** A walk with a builder that is defined exactly where `ok` holds of the
      number of quads before the child and the child itself succeeds exactly
      when `ok` holds of every "quad" child at its position. */
  lemma {:induction false} LoadNodesDefinedBy(q: seq<Quad>, ns: seq<Node>, build: Builder, ok: (nat, Node) -> bool)
    requires forall prior: seq<Quad>, n: Node :: build(prior, n).Some? <==> ok(|prior|, n)
    ensures LoadNodes(q, ns, build).Some? <==>
      forall j :: 0 <= j < |QuadNodes(ns)| ==> ok(|q| + j, QuadNodes(ns)[j])
    decreases |ns|
  {
    if ns != [] {
      var init, last := ns[..|ns| - 1], ns[|ns| - 1];
      LoadNodesDefinedBy(q, init, build, ok);
      if last.name == QuadTag {
        assert QuadNodes(ns) == QuadNodes(init) + [last];
        assert LoadNodes(q, ns, build).Some? <==>
          LoadNodes(q, init, build).Some? && ok(|q| + |QuadNodes(init)|, last);
        assert (forall j :: 0 <= j < |QuadNodes(ns)| ==> ok(|q| + j, QuadNodes(ns)[j])) <==>
          (forall j :: 0 <= j < |QuadNodes(init)| ==> ok(|q| + j, QuadNodes(init)[j])) &&
          ok(|q| + |QuadNodes(init)|, last)
        by {
          assert forall j :: 0 <= j < |QuadNodes(init)| ==> QuadNodes(ns)[j] == QuadNodes(init)[j];
          assert QuadNodes(ns)[|QuadNodes(init)|] == last;
        }
      } else {
        assert QuadNodes(ns) == QuadNodes(init);
      }
    }
  }

  /** The walk of the loader succeeds exactly when every corner of every
      "quad" child can be resolved against the quads before it. */
  lemma LoadNodesDefined(q: seq<Quad>, ns: seq<Node>, r: Readers)
    ensures LoadNodes(q, ns, QuadBuilder(r)).Some? <==> BackwardReferences(|q|, QuadNodes(ns))
  {
    LoadNodesDefinedBy(q, ns, QuadBuilder(r), NodeReferencesOk);
  }

  /** For the loader's own builder: the quad at position |q|+j was built
      from the j-th "quad" child, its corners resolved against the quads
      before it. */
  lemma LoadedInDocumentOrder(q: seq<Quad>, ns: seq<Node>, r: Readers, j: nat)
    requires LoadNodes(q, ns, QuadBuilder(r)).Some? && j < |QuadNodes(ns)|
    ensures var res := LoadNodes(q, ns, QuadBuilder(r)).value;
      NodeReferencesOk(|q| + j, QuadNodes(ns)[j]) &&
      res[|q| + j] == BuildQuad(res[..|q| + j], QuadNodes(ns)[j], r)
  {
    LoadNodesInOrder(q, ns, QuadBuilder(r), j);
  }

  // ---------------------------------------------------------------------------
  // Bounding box

  /** `v` lowered component-wise to each corner of `q`, corner by corner. */
  function QuadMin(v: Vec3, q: Quad): (m: Vec3)
    ensures Le(m, v)
    ensures forall i :: 0 <= i < 4 ==> Le(m, q.Vertex(i))
    ensures forall a :: m.At(a) == v.At(a) || exists i :: 0 <= i < 4 && m.At(a) == q.Vertex(i).At(a)
  {
    var m := v.Min(q.p0).Min(q.p1).Min(q.p2).Min(q.p3);
    assert forall a :: m.At(a) == v.At(a) || m.At(a) == q.Vertex(0).At(a) || m.At(a) == q.Vertex(1).At(a)
                    || m.At(a) == q.Vertex(2).At(a) || m.At(a) == q.Vertex(3).At(a);
    m
  }

  /** `v` raised component-wise to each corner of `q`, corner by corner. */
  function QuadMax(v: Vec3, q: Quad): (m: Vec3)
    ensures Le(v, m)
    ensures forall i :: 0 <= i < 4 ==> Le(q.Vertex(i), m)
    ensures forall a :: m.At(a) == v.At(a) || exists i :: 0 <= i < 4 && m.At(a) == q.Vertex(i).At(a)
  {
    var m := v.Max(q.p0).Max(q.p1).Max(q.p2).Max(q.p3);
    assert forall a :: m.At(a) == v.At(a) || m.At(a) == q.Vertex(0).At(a) || m.At(a) == q.Vertex(1).At(a)
                    || m.At(a) == q.Vertex(2).At(a) || m.At(a) == q.Vertex(3).At(a);
    m
  }

  /** The lower corner after folding every vertex of `qs`, in order, into `lo`. */
  function FoldMin(lo: Vec3, qs: seq<Quad>): Vec3
  {
    if qs == [] then lo else QuadMin(FoldMin(lo, qs[..|qs| - 1]), qs[|qs| - 1])
  }

  /** The upper corner after folding every vertex of `qs`, in order, into `hi`. */
  function FoldMax(hi: Vec3, qs: seq<Quad>): Vec3
  {
    if qs == [] then hi else QuadMax(FoldMax(hi, qs[..|qs| - 1]), qs[|qs| - 1])
  }

  /** The box can be computed in two parts: folding `xs + ys` is folding
      `xs` and then, from that box, `ys`. */
  lemma {:induction false} FoldsAppend(lo: Vec3, hi: Vec3, xs: seq<Quad>, ys: seq<Quad>)
    ensures FoldMin(lo, xs + ys) == FoldMin(FoldMin(lo, xs), ys)
    ensures FoldMax(hi, xs + ys) == FoldMax(FoldMax(hi, xs), ys)
    decreases |ys|
  {
    if ys == [] {
      assert xs + ys == xs;
    } else {
      var init := ys[..|ys| - 1];
      FoldsAppend(lo, hi, xs, init);
      assert (xs + ys)[..|xs + ys| - 1] == xs + init;
    }
  }

  /** FoldsAppend for the quads from `k` on, split at `m`. */
  lemma FoldsSplit(lo: Vec3, hi: Vec3, qs: seq<Quad>, k: nat, m: nat)
    requires k <= m <= |qs|
    ensures FoldMin(lo, qs[k..]) == FoldMin(FoldMin(lo, qs[..m][k..]), qs[m..])
    ensures FoldMax(hi, qs[k..]) == FoldMax(FoldMax(hi, qs[..m][k..]), qs[m..])
  {
    assert qs[k..] == qs[..m][k..] + qs[m..];
    FoldsAppend(lo, hi, qs[..m][k..], qs[m..]);
  }

  /** The box encloses every vertex of every quad, and never extends past its
      start values: the lower corner stays below `lo`, the upper above `hi`. */
  lemma {:induction false} BoundsEnclose(lo: Vec3, hi: Vec3, qs: seq<Quad>)
    ensures Le(FoldMin(lo, qs), lo) && Le(hi, FoldMax(hi, qs))
    ensures forall k, i :: 0 <= k < |qs| && 0 <= i < 4 ==>
      Le(FoldMin(lo, qs), qs[k].Vertex(i)) && Le(qs[k].Vertex(i), FoldMax(hi, qs))
  {
    if qs != [] {
      var init := qs[..|qs| - 1];
      BoundsEnclose(lo, hi, init);
      forall k, i | 0 <= k < |qs| - 1 && 0 <= i < 4
        ensures Le(FoldMin(lo, qs), qs[k].Vertex(i)) && Le(qs[k].Vertex(i), FoldMax(hi, qs))
      {
        assert qs[k] == init[k];
      }
    }
  }

  /** Every component of the box is a start value or a coordinate of some
      vertex: the box is no larger than the vertices and start values make
      it. */
  lemma {:induction false} BoundsAttained(lo: Vec3, hi: Vec3, qs: seq<Quad>, a: Axis)
    ensures FoldMin(lo, qs).At(a) == lo.At(a) ||
      exists k, i :: 0 <= k < |qs| && 0 <= i < 4 && FoldMin(lo, qs).At(a) == qs[k].Vertex(i).At(a)
    ensures FoldMax(hi, qs).At(a) == hi.At(a) ||
      exists k, i :: 0 <= k < |qs| && 0 <= i < 4 && FoldMax(hi, qs).At(a) == qs[k].Vertex(i).At(a)
  {
    if qs != [] {
      var init := qs[..|qs| - 1];
      var k := |qs| - 1;
      BoundsAttained(lo, hi, init, a);
      if FoldMin(lo, qs).At(a) != FoldMin(lo, init).At(a) {
        var i :| 0 <= i < 4 && FoldMin(lo, qs).At(a) == qs[k].Vertex(i).At(a);
      } else if FoldMin(lo, init).At(a) != lo.At(a) {
        var k', i :| 0 <= k' < |init| && 0 <= i < 4 && FoldMin(lo, init).At(a) == init[k'].Vertex(i).At(a);
        assert qs[k'] == init[k'];
      }
      if FoldMax(hi, qs).At(a) != FoldMax(hi, init).At(a) {
        var i :| 0 <= i < 4 && FoldMax(hi, qs).At(a) == qs[k].Vertex(i).At(a);
      } else if FoldMax(hi, init).At(a) != hi.At(a) {
        var k', i :| 0 <= k' < |init| && 0 <= i < 4 && FoldMax(hi, init).At(a) == init[k'].Vertex(i).At(a);
        assert qs[k'] == init[k'];
      }
    }
  }

  /** Once at least one quad is loaded, the box is well-formed: the lower
      corner lies below the upper one on every axis. */
  lemma BoundsOrdered(qs: seq<Quad>)
    requires |qs| > 0
    ensures Le(FoldMin(MinSentinel, qs), FoldMax(MaxSentinel, qs))
  {
    BoundsEnclose(MinSentinel, MaxSentinel, qs);
    assert Le(FoldMin(MinSentinel, qs), qs[0].Vertex(0));
  }

  /** Folding in more quads never raises the lower corner nor lowers the
      upper one. */
  lemma {:induction false} BoundsMonotone(lo: Vec3, hi: Vec3, qs: seq<Quad>, more: seq<Quad>)
    ensures Le(FoldMin(lo, qs + more), FoldMin(lo, qs))
    ensures Le(FoldMax(hi, qs), FoldMax(hi, qs + more))
    decreases |more|
  {
    if more == [] {
      assert qs + more == qs;
    } else {
      var init := more[..|more| - 1];
      assert (qs + more)[..|qs + more| - 1] == qs + init;
      BoundsMonotone(lo, hi, qs, init);
    }
  }

  // ---------------------------------------------------------------------------
  // The loader

  /** The file loaded and its root element is "quads". */
  predicate IsQuadsDocument(doc: Option<Document>)
  {
    doc.Some? && doc.value.name == RootTag
  }

  /** The children the loader walks: none when the file is missing or has
      the wrong root. */
  function Children(doc: Option<Document>): (ns: seq<Node>)
    ensures IsQuadsDocument(doc) ==> ns == doc.value.nodes
    ensures ns != [] ==> doc.Some? && doc.value.name == RootTag && ns == doc.value.nodes
  {
    if IsQuadsDocument(doc) then doc.value.nodes else []
  }

  class QuadSet {
    var allQuads: seq<Quad>
    var min: Vec3
    var max: Vec3

    /** QuadSet::QuadSet: a fresh set loaded from `doc`. */
    constructor (doc: Option<Document>, r: Readers)
      requires BackwardReferences(0, QuadNodes(Children(doc)))
      ensures min == FoldMin(MinSentinel, allQuads) && max == FoldMax(MaxSentinel, allQuads)
      ensures LoadNodes([], Children(doc), QuadBuilder(r)) == Some(allQuads)
    {
      allQuads := [];
      new;
      Load(doc, r);
      assert allQuads[0..] == allQuads;
    }

    /** The body of QuadSet::load for one "quad" child: resolve its four
        corners against the quads stored so far, read its visibility flag,
        append the quad, and fold its corners into the box, first into the
        upper corner and then into the lower one. */
    method AddQuad(node: Node, r: Readers)
      requires NodeReferencesOk(|allQuads|, node)
      modifies this
      ensures allQuads == old(allQuads) + [BuildQuad(old(allQuads), node, r)]
      ensures min == QuadMin(old(min), allQuads[|allQuads| - 1])
      ensures max == QuadMax(old(max), allQuads[|allQuads| - 1])
    {
      var p0 := ResolvePoint(allQuads, node, "p0", r);
      var p1 := ResolvePoint(allQuads, node, "p1", r);
      var p2 := ResolvePoint(allQuads, node, "p2", r);
      var p3 := ResolvePoint(allQuads, node, "p3", r);
      var invisible := ReadFlag(node, "invisible", false, r);
      allQuads := allQuads + [Quad(p0, p1, p2, p3, invisible)];
      max := max.Max(p0); max := max.Max(p1); max := max.Max(p2); max := max.Max(p3);
      min := min.Min(p0); min := min.Min(p1); min := min.Min(p2); min := min.Min(p3);
    }

    /** The body of the loop of QuadSet::load for one child: a "quad"
        child is added as AddQuad describes, any other child is skipped. */
    method LoadChild(node: Node, r: Readers)
      requires LoadNodes(allQuads, [node], QuadBuilder(r)).Some?
      modifies this
      ensures LoadNodes(old(allQuads), [node], QuadBuilder(r)) == Some(allQuads)
      ensures min == FoldMin(old(min), allQuads[|old(allQuads)|..])
      ensures max == FoldMax(old(max), allQuads[|old(allQuads)|..])
    {
      assert [node][..0] == [];
      if node.name != QuadTag {
        assert allQuads[|allQuads|..] == [];
        return;
      }
      AddQuad(node, r);
      assert allQuads[|allQuads| - 1..] == [allQuads[|allQuads| - 1]];
    }

    /** The loop of QuadSet::load over the children of the root: one quad
        appended per "quad" child, in document order, its corners folded
        into the box; other children are skipped. */
    method LoadChildren(nodes: seq<Node>, r: Readers)
      requires LoadNodes(allQuads, nodes, QuadBuilder(r)).Some?
      modifies this
      ensures LoadNodes(old(allQuads), nodes, QuadBuilder(r)) == Some(allQuads)
      ensures min == FoldMin(old(min), allQuads[|old(allQuads)|..])
      ensures max == FoldMax(old(max), allQuads[|old(allQuads)|..])
    {
      ghost var before, lo, hi := allQuads, min, max;
      var i := 0;
      while i < |nodes|
        invariant 0 <= i <= |nodes|
        invariant LoadNodes(before, nodes[..i], QuadBuilder(r)) == Some(allQuads)
        invariant min == FoldMin(lo, allQuads[|before|..])
        invariant max == FoldMax(hi, allQuads[|before|..])
      {
        LoadNodesNext(before, nodes, i, QuadBuilder(r));
        ghost var prev := allQuads;
        LoadChild(nodes[i], r);
        FoldsSplit(lo, hi, allQuads, |before|, |prev|);
        i := i + 1;
      }
      assert nodes[..i] == nodes;
    }

    /** QuadSet::load: reset the box to its sentinels; when the document is
        a "quads" document, append one quad per "quad" child in document
        order and fold its corners into the box. Quads already present are
        kept, but the box covers only the quads this call appends. Every
        corner reference must name a quad loaded before its child. */
    method Load(doc: Option<Document>, r: Readers)
      requires BackwardReferences(|allQuads|, QuadNodes(Children(doc)))
      modifies this
      ensures LoadNodes(old(allQuads), Children(doc), QuadBuilder(r)) == Some(allQuads)
      ensures min == FoldMin(MinSentinel, allQuads[|old(allQuads)|..])
      ensures max == FoldMax(MaxSentinel, allQuads[|old(allQuads)|..])
      ensures !IsQuadsDocument(doc) ==>
        allQuads == old(allQuads) && min == MinSentinel && max == MaxSentinel
    {
      LoadNodesDefined(allQuads, Children(doc), r);
      min := MinSentinel;
      max := MaxSentinel;
      if doc.None? || doc.value.name != RootTag {
        assert allQuads[|allQuads|..] == [];
        return;
      }
      LoadChildren(doc.value.nodes, r);
    }
  }
}
