/** The overlay-map (KML) document that the crawler builds in memory before
    saving it: a tree of folders holding named polygons, line strings and
    points, to which the crawler only ever appends.

    The tree is kept as the list of features in creation order; each feature
    names its container, either the document itself or an earlier folder
    (given by its position in the list). A `Parent` value is the handle the
    crawler holds on to, as it holds on to a folder object in the original. */
module Kml {
  import opened Osm
  import opened Seqs

  datatype Parent = Document | InFolder(index: nat)

  datatype Feature =
    | Folder(name: string, parent: Parent)
    | PolygonShape(name: string, parent: Parent, outerBoundary: seq<LonLat>)
    | LineShape(name: string, parent: Parent, coords: seq<LonLat>)
    | PointMark(name: string, parent: Parent, coords: seq<LonLat>)

  /** `p` is the document or one of the folders among `fs`. */
  predicate IsContainer(fs: seq<Feature>, p: Parent) {
    p.Document? || (p.index < |fs| && fs[p.index].Folder?)
  }

  /** Every feature sits in the document or in a folder created before it,
      so the features form a tree rooted at the document. */
  ghost predicate WellFormed(fs: seq<Feature>) {
    forall k :: 0 <= k < |fs| ==> IsContainer(fs[..k], fs[k].parent)
  }

  /** Appending a feature whose container already exists keeps the tree well formed. */
  lemma AppendWellFormed(fs: seq<Feature>, f: Feature)
    requires WellFormed(fs) && IsContainer(fs, f.parent)
    ensures WellFormed(fs + [f])
  {
    var gs := fs + [f];
    forall k | 0 <= k < |gs| ensures IsContainer(gs[..k], gs[k].parent) {
      if k < |fs| {
        assert gs[..k] == fs[..k];
      } else {
        assert gs[..k] == fs;
      }
    }
  }

  /** A container stays a container when features are appended. */
  lemma ContainerKept(fs: seq<Feature>, gs: seq<Feature>, p: Parent)
    requires IsContainer(fs, p)
    ensures IsContainer(fs + gs, p)
  {
    if p.InFolder? {
      assert (fs + gs)[p.index] == fs[p.index];
    }
  }

  /** The features placed directly in container `p`, in creation order. */
  function ChildrenOf(fs: seq<Feature>, p: Parent): (cs: seq<Feature>)
    ensures |cs| <= |fs|
    ensures forall f :: f in cs ==> f in fs && f.parent == p
  {
    if fs == [] then []
    else
      var init := ChildrenOf(fs[..|fs| - 1], p);
      if fs[|fs| - 1].parent == p then init + [fs[|fs| - 1]] else init
  }

  /** Children of a container are collected in order across appended features. */
  lemma {:induction false} ChildrenOfAppend(fs: seq<Feature>, gs: seq<Feature>, p: Parent)
    ensures ChildrenOf(fs + gs, p) == ChildrenOf(fs, p) + ChildrenOf(gs, p)
    decreases |gs|
  {
    if gs == [] {
      assert fs + gs == fs;
    } else {
      var n := |gs| - 1;
      var hs := fs + gs;
      assert hs[..|hs| - 1] == fs + gs[..n] && hs[|hs| - 1] == gs[n];
      ChildrenOfAppend(fs, gs[..n], p);
      if gs[n].parent == p {
        SeqAssoc(ChildrenOf(fs, p), ChildrenOf(gs[..n], p), [gs[n]]);
      }
    }
  }

  class KmlDocument {
    var features: seq<Feature>

    ghost predicate Valid()
      reads this
    {
      WellFormed(features)
    }

    /** `simplekml.Kml()`: an empty document. */
    constructor ()
      ensures Valid() && features == []
    {
      features := [];
    }

    /** Starting a new document, as the crawler does for every request. */
    method Clear()
      modifies this
      ensures Valid() && features == []
    {
      features := [];
    }

    /** `newfolder(name=...)` on the document or on a folder. */
    method NewFolder(parent: Parent, name: string) returns (folder: Parent)
      requires Valid() && IsContainer(features, parent)
      modifies this
      ensures Valid() && features == old(features) + [Folder(name, parent)]
      ensures folder == InFolder(|old(features)|) && IsContainer(features, folder)
    {
      AppendWellFormed(features, Folder(name, parent));
      folder := InFolder(|features|);
      features := features + [Folder(name, parent)];
    }

    /** `newpolygon(name=..., outerboundaryis=...)`. */
    method NewPolygon(parent: Parent, name: string, outer: seq<LonLat>)
      requires Valid() && IsContainer(features, parent)
      modifies this
      ensures Valid() && features == old(features) + [PolygonShape(name, parent, outer)]
    {
      AppendWellFormed(features, PolygonShape(name, parent, outer));
      features := features + [PolygonShape(name, parent, outer)];
    }

    /** `newlinestring(name=..., coords=...)`. */
    method NewLineString(parent: Parent, name: string, coords: seq<LonLat>)
      requires Valid() && IsContainer(features, parent)
      modifies this
      ensures Valid() && features == old(features) + [LineShape(name, parent, coords)]
    {
      AppendWellFormed(features, LineShape(name, parent, coords));
      features := features + [LineShape(name, parent, coords)];
    }

    /** `newpoint(name=..., coords=...)`. */
    method NewPoint(parent: Parent, name: string, coords: seq<LonLat>)
      requires Valid() && IsContainer(features, parent)
      modifies this
      ensures Valid() && features == old(features) + [PointMark(name, parent, coords)]
    {
      AppendWellFormed(features, PointMark(name, parent, coords));
      features := features + [PointMark(name, parent, coords)];
    }
  }
}
