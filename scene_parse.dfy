/// The recursive-descent scene builder of src/scene.cpp.  It walks an XML
/// tree and appends nodes to the scene's `sdfs` arena and materials to its
/// `mats` arena, each parent before its children, then patches the handles
/// of the node it just appended.  The XML document is an abstract tree; the
/// "color" attribute arrives already decoded.
module SceneParse {
  import opened SdfOps
  import opened Scene

  /// An XML element: its name, its numeric attributes, its decoded colour and
  /// its children in document order.
  datatype XmlNode = XmlNode(name: string, attrs: map<string, real>, color: Vec3, children: seq<XmlNode>)

  /// The outcome of a search among children.
  datatype Search = Found(index: nat) | Absent

  /// attribute(key).as_float(): a missing attribute reads as 0.
  function Attr(node: XmlNode, key: string): real
  {
    if key in node.attrs then node.attrs[key] else 0.0
  }

  /// The position of the first "emission" child, if any.
  function FindEmission(cs: seq<XmlNode>): (r: Search)
    ensures r.Found? ==> r.index < |cs| && cs[r.index].name == "emission"
    ensures r.Found? ==> forall j :: 0 <= j < r.index ==> cs[j].name != "emission"
    ensures r.Absent? ==> forall j :: 0 <= j < |cs| ==> cs[j].name != "emission"
  {
    if |cs| == 0 then Absent
    else if cs[0].name == "emission" then Found(0)
    else
      match FindEmission(cs[1..])
      case Absent => Absent
      case Found(k) => Found(k + 1)
  }

  /// The material an "emission" child describes.
  function EmissionMat(c: XmlNode): Mat
  {
    MatOfScalar(MatType.Emission, c.color, Attr(c, "s"))
  }

  /// The result of a parse step: both arenas and the returned handle.
  datatype Parsed = Parsed(sdfs: seq<Sdf>, mats: seq<Mat>, handle: nat)

  /// parse_mat: the first emission child appends one material and yields
  /// its index; diffuse, glass, glossy and other children are skipped; with
  /// no emission child nothing is appended and the result is SIZE_MAX.
  function MatOf(node: XmlNode, m: seq<Mat>): (r: (seq<Mat>, nat))
  {
    match FindEmission(node.children)
    case Found(k) => (m + [EmissionMat(node.children[k])], |m|)
    case Absent => (m, NoHandle)
  }

  /// Parsing the child at position k; a missing child is a null node, whose
  /// empty name parse_sdf does not know.
  function ParseChild(node: XmlNode, k: nat, s: seq<Sdf>, m: seq<Mat>): (r: Parsed)
    requires ChildParsable(node, k)
    ensures Grows(s, m, r)
    ensures r.handle == NoHandle || |s| == r.handle < |r.sdfs|
    decreases node, 0
  {
    if k < |node.children| then Build(node.children[k], s, m) else Parsed(s, m, NoHandle)
  }

  predicate ChildParsable(node: XmlNode, k: nat)
  {
    k < |node.children| ==> Parsable(node.children[k])
  }

  /// What parse_sdf needs of its input: a union has at least one child, since
  /// the source steps its child iterator past the first child unchecked.
  predicate Parsable(node: XmlNode)
  {
    if node.name == "translate" then
      0 < |node.children| ==> Parsable(node.children[0])
    else if node.name == "union" then
      0 < |node.children| &&
      Parsable(node.children[0]) &&
      (1 < |node.children| ==> Parsable(node.children[1]))
    else true
  }

  /// The arenas only grow: earlier entries are kept in place.
  ghost predicate Grows(s: seq<Sdf>, m: seq<Mat>, r: Parsed)
  {
    |s| <= |r.sdfs| && r.sdfs[..|s|] == s &&
    |m| <= |r.mats| && r.mats[..|m|] == m
  }

  /// parse_sphere: append a sphere with radius r, give it the material of
  /// parse_mat, and return its index.
  function BuildSphere(node: XmlNode, s: seq<Sdf>, m: seq<Mat>): (r: Parsed)
    ensures r.handle == |s| < |r.sdfs|
    ensures Grows(s, m, r)
  {
    var id := |s|;
    var s1 := s + [SdfOfScalars(SdfType.Sphere, Attr(node, "r"), 0.0, 0.0, 0.0)];
    var (m1, mh) := MatOf(node, m);
    Parsed(s1[id := s1[id].(mat := mh)], m1, id)
  }

  /// parse_translate: append a translate node with (x, y, z), parse the first
  /// child, and link it as `a`.
  function BuildTranslate(node: XmlNode, s: seq<Sdf>, m: seq<Mat>): (r: Parsed)
    ensures r.handle == |s| < |r.sdfs|
    requires Parsable(node) && node.name == "translate"
    ensures Grows(s, m, r)
    decreases node, 1
  {
    var id := |s|;
    var s1 := s + [SdfOfScalars(SdfType.Translate, Attr(node, "x"), Attr(node, "y"), Attr(node, "z"), 0.0)];
    var r1 := ParseChild(node, 0, s1, m);
    Parsed(r1.sdfs[id := r1.sdfs[id].(a := r1.handle)], r1.mats, id)
  }

  /// parse_union: append a union node, parse the first child and link it as
  /// `a`, then parse the second child and link it as `b`.
  function BuildUnion(node: XmlNode, s: seq<Sdf>, m: seq<Mat>): (r: Parsed)
    ensures r.handle == |s| < |r.sdfs|
    requires Parsable(node) && node.name == "union"
    ensures Grows(s, m, r)
    decreases node, 1
  {
    var id := |s|;
    var s1 := s + [SdfOfScalars(SdfType.Union, 0.0, 0.0, 0.0, 0.0)];
    var r1 := ParseChild(node, 0, s1, m);
    var s2 := r1.sdfs[id := r1.sdfs[id].(a := r1.handle)];
    var r2 := ParseChild(node, 1, s2, r1.mats);
    UnionGrows(s, m, s1, r1, s2, r2, r2.sdfs[id].(b := r2.handle));
    Parsed(r2.sdfs[id := r2.sdfs[id].(b := r2.handle)], r2.mats, id)
  }

  /// Appending the union, parsing its children behind it and filling in its
  /// two links keeps every entry and material that was there before.
  lemma UnionGrows(s: seq<Sdf>, m: seq<Mat>, s1: seq<Sdf>, r1: Parsed, s2: seq<Sdf>, r2: Parsed, x: Sdf)
    requires |s1| == |s| + 1 && s1[..|s|] == s
    requires Grows(s1, m, r1) && |s2| == |r1.sdfs| && s2[..|s|] == r1.sdfs[..|s|]
    requires Grows(s2, r1.mats, r2)
    ensures |s| < |r2.sdfs| && Grows(s, m, Parsed(r2.sdfs[|s| := x], r2.mats, |s|))
  {
    assert r1.sdfs[..|s|] == s1[..|s|];
    assert r2.sdfs[..|s|] == s2[..|s|];
    assert r2.sdfs[|s| := x][..|s|] == r2.sdfs[..|s|];
    assert r2.mats[..|m|] == r1.mats[..|m|];
  }

  /// parse_sdf: dispatch on the element name; an unknown name appends
  /// nothing and yields SIZE_MAX.
  function Build(node: XmlNode, s: seq<Sdf>, m: seq<Mat>): (r: Parsed)
    requires Parsable(node)
    ensures Grows(s, m, r)
    ensures Known(node) ==> r.handle == |s| < |r.sdfs|
    ensures !Known(node) ==> r == Parsed(s, m, NoHandle)
    decreases node, 2
  {
    if node.name == "sphere" then BuildSphere(node, s, m)
    else if node.name == "translate" then BuildTranslate(node, s, m)
    else if node.name == "union" then BuildUnion(node, s, m)
    else Parsed(s, m, NoHandle)
  }

  predicate Known(node: XmlNode)
  {
    node.name == "sphere" || node.name == "translate" || node.name == "union"
  }

  /// Every link of the arena points forward, to an existing entry, or is
  /// SIZE_MAX; so following links always moves to a larger index and the
  /// graph has no cycles.
  predicate Linked(s: seq<Sdf>, m: seq<Mat>)
  {
    forall i :: 0 <= i < |s| ==>
      (s[i].a == NoHandle || i < s[i].a < |s|) &&
      (s[i].b == NoHandle || i < s[i].b < |s|) &&
      (s[i].mat == NoHandle || s[i].mat < |m|)
  }

  /// parse_sphere appends exactly one SPHERE with args[0] = r, linked to the
  /// material parse_mat returns, and returns its index.
  lemma SphereAppendsOne(node: XmlNode, s: seq<Sdf>, m: seq<Mat>)
    requires node.name == "sphere"
    ensures var r := Build(node, s, m);
      |r.sdfs| == |s| + 1 && r.handle == |s| &&
      r.sdfs[|s|].kind == SdfType.Sphere && r.sdfs[|s|].args.x == Attr(node, "r") &&
      r.sdfs[|s|].mat == MatOf(node, m).1 && r.mats == MatOf(node, m).0
  {
  }

  /// parse_mat appends one EMISSION material for the first emission child
  /// and returns its index, or appends nothing and returns SIZE_MAX.
  lemma MatOfCases(node: XmlNode, m: seq<Mat>)
    ensures var (m1, h) := MatOf(node, m);
      (h == NoHandle && m1 == m && forall j :: 0 <= j < |node.children| ==> node.children[j].name != "emission") ||
      (h == |m| && |m1| == |m| + 1 && m1[..|m|] == m && m1[h].kind == MatType.Emission &&
       exists j :: 0 <= j < |node.children| && node.children[j].name == "emission" &&
                   m1[h] == EmissionMat(node.children[j]))
  {
    match FindEmission(node.children)
    case Found(k) =>
      assert node.children[k].name == "emission";
    case Absent =>
  }

  /// A union's `a` is SIZE_MAX or its first child right after it, and its
  /// `b` is SIZE_MAX or the index after the whole first subtree, so `b`
  /// exceeds `a` and every index of `a`'s subtree.
  lemma UnionOrder(node: XmlNode, s: seq<Sdf>, m: seq<Mat>)
    requires Parsable(node) && node.name == "union"
    ensures var id := |s|;
      var r1 := ParseChild(node, 0, s + [SdfOfScalars(SdfType.Union, 0.0, 0.0, 0.0, 0.0)], m);
      var r := Build(node, s, m);
      id < |r1.sdfs| &&
      r.sdfs[id].a == r1.handle && (r1.handle == NoHandle || r1.handle == id + 1) &&
      (r.sdfs[id].b == NoHandle || (id < r.sdfs[id].b && r.sdfs[id].b == |r1.sdfs|))
  {
    var id := |s|;
    var s1 := s + [SdfOfScalars(SdfType.Union, 0.0, 0.0, 0.0, 0.0)];
    var r1 := ParseChild(node, 0, s1, m);
    assert id < |r1.sdfs|;
  }

  /// Parsing keeps the arena linked: starting from a linked arena, every
  /// link of the result points forward to an existing entry or is SIZE_MAX.
  lemma {:induction false} BuildKeepsLinked(node: XmlNode, s: seq<Sdf>, m: seq<Mat>)
    requires Parsable(node) && Linked(s, m)
    ensures Linked(Build(node, s, m).sdfs, Build(node, s, m).mats)
    decreases node
  {
    var id := |s|;
    if node.name == "sphere" {
      var r := Build(node, s, m);
      assert r.sdfs[..id] == s;
      forall i | 0 <= i < |r.sdfs|
        ensures (r.sdfs[i].a == NoHandle || i < r.sdfs[i].a < |r.sdfs|) &&
                (r.sdfs[i].b == NoHandle || i < r.sdfs[i].b < |r.sdfs|) &&
                (r.sdfs[i].mat == NoHandle || r.sdfs[i].mat < |r.mats|)
      {
        if i < id {
          assert r.sdfs[i] == s[i];
        }
      }
    } else if node.name == "translate" {
      var s1 := s + [SdfOfScalars(SdfType.Translate, Attr(node, "x"), Attr(node, "y"), Attr(node, "z"), 0.0)];
      assert Linked(s1, m);
      var r1 := ParseChild(node, 0, s1, m);
      ChildKeepsLinked(node, 0, s1, m);
            var r := Build(node, s, m);
      assert r == BuildTranslate(node, s, m);
      PatchKeepsLinked(r1.sdfs, r1.mats, id, r1.sdfs[id].(a := r1.handle));
    } else if node.name == "union" {
      var s1 := s + [SdfOfScalars(SdfType.Union, 0.0, 0.0, 0.0, 0.0)];
      assert Linked(s1, m);
      var r1 := ParseChild(node, 0, s1, m);
      ChildKeepsLinked(node, 0, s1, m);
            var s2 := r1.sdfs[id := r1.sdfs[id].(a := r1.handle)];
      PatchKeepsLinked(r1.sdfs, r1.mats, id, r1.sdfs[id].(a := r1.handle));
      var r2 := ParseChild(node, 1, s2, r1.mats);
      ChildKeepsLinked(node, 1, s2, r1.mats);
            assert r2.sdfs[id] == s2[id];
      var r := Build(node, s, m);
      assert r == BuildUnion(node, s, m);
      PatchKeepsLinked(r2.sdfs, r2.mats, id, r2.sdfs[id].(b := r2.handle));
    }
  }

  lemma {:induction false} ChildKeepsLinked(node: XmlNode, k: nat, s: seq<Sdf>, m: seq<Mat>)
    requires ChildParsable(node, k) && Linked(s, m)
    ensures Linked(ParseChild(node, k, s, m).sdfs, ParseChild(node, k, s, m).mats)
    decreases node, 0
  {
    if k < |node.children| {
      BuildKeepsLinked(node.children[k], s, m);
    }
  }

  /// Replacing entry id by one whose links are forward or SIZE_MAX keeps
  /// the arena linked.
  lemma PatchKeepsLinked(s: seq<Sdf>, m: seq<Mat>, id: nat, e: Sdf)
    requires Linked(s, m) && id < |s|
    requires e.a == NoHandle || id < e.a < |s|
    requires e.b == NoHandle || id < e.b < |s|
    requires e.mat == NoHandle || e.mat < |m|
    ensures Linked(s[id := e], m)
  {
  }

  /// The scene specification the parser fills in.
  class TpmSpec {
    var image: ImageSpec
    var renderer: RendererSpec
    var sdfs: seq<Sdf>
    var mats: seq<Mat>

    /// A fresh specification: the default settings and empty arenas.
    constructor()
      ensures image == DefaultImage && renderer == DefaultRenderer
      ensures sdfs == [] && mats == []
    {
      image := DefaultImage;
      renderer := DefaultRenderer;
      sdfs := [];
      mats := [];
    }

    /// parse_mat(node, spec): scan the children for the first emission.
    method ParseMat(node: XmlNode) returns (h: nat)
      modifies this
      ensures (mats, h) == MatOf(node, old(mats))
      ensures sdfs == old(sdfs) && image == old(image) && renderer == old(renderer)
    {
      var i := 0;
      while i < |node.children|
        invariant 0 <= i <= |node.children|
        invariant FindEmission(node.children).Absent? || i <= FindEmission(node.children).index
        invariant mats == old(mats) && sdfs == old(sdfs)
        invariant image == old(image) && renderer == old(renderer)
      {
        var child := node.children[i];
        if child.name == "emission" {
          mats := mats + [MatOfScalar(MatType.Emission, child.color, Attr(child, "s"))];
          return |mats| - 1;
        } else if child.name == "diffuse" {
        } else if child.name == "glass" {
        } else if child.name == "glossy" {
        }
        i := i + 1;
      }
      return NoHandle;
    }

    /// parse_sphere(node, spec).
    method ParseSphere(node: XmlNode) returns (h: nat)
      modifies this
      ensures Parsed(sdfs, mats, h) == BuildSphere(node, old(sdfs), old(mats))
      ensures image == old(image) && renderer == old(renderer)
    {
      sdfs := sdfs + [SdfOfScalars(SdfType.Sphere, Attr(node, "r"), 0.0, 0.0, 0.0)];
      var id := |sdfs| - 1;
      var mh := ParseMat(node);
      sdfs := sdfs[id := sdfs[id].(mat := mh)];
      return id;
    }

    /// parse_translate(node, spec).
    method ParseTranslate(node: XmlNode) returns (h: nat)
      requires Parsable(node) && node.name == "translate"
      modifies this
      ensures Parsed(sdfs, mats, h) == BuildTranslate(node, old(sdfs), old(mats))
      ensures image == old(image) && renderer == old(renderer)
      decreases node, 1
    {
      sdfs := sdfs + [SdfOfScalars(SdfType.Translate, Attr(node, "x"), Attr(node, "y"), Attr(node, "z"), 0.0)];
      var id := |sdfs| - 1;
      var a := ParseNth(node, 0);
      sdfs := sdfs[id := sdfs[id].(a := a)];
      return id;
    }

    /// parse_union(node, spec).
    method ParseUnion(node: XmlNode) returns (h: nat)
      requires Parsable(node) && node.name == "union"
      modifies this
      ensures Parsed(sdfs, mats, h) == BuildUnion(node, old(sdfs), old(mats))
      ensures image == old(image) && renderer == old(renderer)
      decreases node, 1
    {
      sdfs := sdfs + [SdfOfScalars(SdfType.Union, 0.0, 0.0, 0.0, 0.0)];
      var id := |sdfs| - 1;
      var a := ParseNth(node, 0);
      sdfs := sdfs[id := sdfs[id].(a := a)];
      var b := ParseNth(node, 1);
      sdfs := sdfs[id := sdfs[id].(b := b)];
      return id;
    }

    /// parse_sdf on the child at position k: `*node.begin()` for k = 0 and
    /// `*(++node.begin())` for k = 1; a missing child is the null node.
    method ParseNth(node: XmlNode, k: nat) returns (h: nat)
      requires ChildParsable(node, k)
      modifies this
      ensures Parsed(sdfs, mats, h) == ParseChild(node, k, old(sdfs), old(mats))
      ensures image == old(image) && renderer == old(renderer)
      decreases node, 0
    {
      if k < |node.children| {
        h := ParseSdf(node.children[k]);
      } else {
        h := NoHandle;
      }
    }

    /// parse_sdf(node, spec).
    method ParseSdf(node: XmlNode) returns (h: nat)
      requires Parsable(node)
      modifies this
      ensures Parsed(sdfs, mats, h) == Build(node, old(sdfs), old(mats))
      ensures image == old(image) && renderer == old(renderer)
      decreases node, 2
    {
      if node.name == "sphere" {
        h := ParseSphere(node);
      } else if node.name == "translate" {
        h := ParseTranslate(node);
      } else if node.name == "union" {
        h := ParseUnion(node);
      } else {
        h := NoHandle;
      }
    }
  }
}
