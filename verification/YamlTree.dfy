/**
  A YAML document as the visual configuration editor edits it: a tree of maps
  with scalar or list leaves, addressed by paths. Comments, key order, anchors,
  aliases and merge keys are left out; without the last three the document and
  the JavaScript object parsed from it are the same tree.
 */
module YamlTree {

  datatype Option<+T> = None | Some(value: T)

  /** A leaf: a scalar, or a list, which no path of the editor enters. */
  datatype Scalar = Bool(b: bool) | Number(n: int) | Text(s: string) | List(items: seq<string>)

  datatype Node<!Key> = Leaf(scalar: Scalar) | Map(entries: map<Key, Node<Key>>)

  /** doc.getIn(path, true), and readObjectPath on the parsed object. */
  function Get<K>(n: Node<K>, path: seq<K>): Option<Node<K>> {
    if |path| == 0 then Some(n)
    else if n.Map? && path[0] in n.entries then Get(n.entries[path[0]], path[1..])
    else None
  }

  predicate Has<K>(n: Node<K>, path: seq<K>) {
    Get(n, path).Some?
  }

  predicate IsMap<K>(n: Node<K>, path: seq<K>) {
    Get(n, path).Some? && Get(n, path).value.Map?
  }

  /** The maps setIn creates for the missing part of a path. */
  function Nest<K>(path: seq<K>, v: Node<K>): Node<K> {
    if |path| == 0 then v else Map(map[path[0] := Nest(path[1..], v)])
  }

  /** doc.setIn: None when it throws, because a scalar is in the way. */
  function SetIn<K>(n: Node<K>, path: seq<K>, v: Node<K>): Option<Node<K>>
    requires |path| > 0
  {
    if n.Leaf? then None
    else if |path| == 1 then Some(Map(n.entries[path[0] := v]))
    else if path[0] !in n.entries then Some(Map(n.entries[path[0] := Nest(path[1..], v)]))
    else
      match SetIn(n.entries[path[0]], path[1..], v)
      case Some(child) => Some(Map(n.entries[path[0] := child]))
      case None => None
  }

  /** doc.deleteIn for a path that is present. */
  function DeleteIn<K>(n: Node<K>, path: seq<K>): Node<K>
    requires |path| > 0 && Has(n, path)
  {
    if |path| == 1 then Map(n.entries - {path[0]})
    else Map(n.entries[path[0] := DeleteIn(n.entries[path[0]], path[1..])])
  }

  function Empty<K>(): Node<K> {
    Map(map[])
  }

  // ----- Paths -----

  predicate Comparable<K(==)>(p: seq<K>, q: seq<K>) {
    p <= q || q <= p
  }

  lemma Shorter<K>(p: seq<K>, q: seq<K>)
    requires |p| > 0 && |q| > 0
    ensures p <= q <==> p[0] == q[0] && p[1..] <= q[1..]
  {
    if p[0] == q[0] && p[1..] <= q[1..] {
      assert p == [p[0]] + p[1..] && q == [q[0]] + q[1..];
    }
  }

  lemma CommonExtension<K>(p: seq<K>, q: seq<K>, r: seq<K>)
    ensures p <= r && q <= r ==> Comparable(p, q)
  {
    assert p <= r ==> p == r[..|p|];
    assert q <= r ==> q == r[..|q|];
  }

  /** Paths that part ways stay apart when extended. */
  lemma ExtensionsPart<K>(p: seq<K>, q: seq<K>, p': seq<K>, q': seq<K>)
    requires !Comparable(p, q) && p <= p' && q <= q'
    ensures !Comparable(p', q')
  {
    CommonExtension(p, q, p');
    CommonExtension(p, q, q');
  }

  // ----- Laws of the primitive operations -----

  lemma {:induction false} GetNest<K>(path: seq<K>, v: Node<K>, q: seq<K>)
    ensures path <= q ==> Get(Nest(path, v), q) == Get(v, q[|path|..])
    ensures !Comparable(path, q) ==> Get(Nest(path, v), q) == None
  {
    if |path| > 0 && |q| > 0 {
      Shorter(path, q);
      Shorter(q, path);
      if path[0] == q[0] {
        GetNest(path[1..], v, q[1..]);
        if path <= q { assert q[1..][|path| - 1..] == q[|path|..]; }
      }
    }
  }

  /** Put-get and frame for setIn: beneath the path the new value, beside it nothing changes. */
  lemma {:induction false} GetSetIn<K>(n: Node<K>, path: seq<K>, v: Node<K>, q: seq<K>)
    requires |path| > 0 && SetIn(n, path, v).Some?
    ensures path <= q ==> Get(SetIn(n, path, v).value, q) == Get(v, q[|path|..])
    ensures !Comparable(path, q) ==> Get(SetIn(n, path, v).value, q) == Get(n, q)
  {
    if |q| > 0 {
      Shorter(path, q);
      Shorter(q, path);
      if path[0] == q[0] {
        if path <= q { assert q[1..][|path| - 1..] == q[|path|..]; }
        if |path| == 1 {
        } else if path[0] !in n.entries {
          GetNest(path[1..], v, q[1..]);
        } else {
          GetSetIn(n.entries[path[0]], path[1..], v, q[1..]);
        }
      }
    }
  }

  lemma {:induction false} GetDeleteIn<K>(n: Node<K>, path: seq<K>, q: seq<K>)
    requires |path| > 0 && Has(n, path)
    ensures path <= q ==> Get(DeleteIn(n, path), q) == None
    ensures !Comparable(path, q) ==> Get(DeleteIn(n, path), q) == Get(n, q)
  {
    if |q| > 0 {
      Shorter(path, q);
      Shorter(q, path);
      if path[0] == q[0] && |path| > 1 {
        GetDeleteIn(n.entries[path[0]], path[1..], q[1..]);
      }
    }
  }

  lemma {:induction false} SetInSucceeds<K>(n: Node<K>, path: seq<K>, v: Node<K>)
    requires |path| > 0
    ensures IsMap(n, path[..|path| - 1]) ==> SetIn(n, path, v).Some?
  {
    if |path| > 1 && n.Map? && path[0] in n.entries {
      var m := |path| - 1;
      assert path[1..][..m - 1] == path[..m][1..];
      SetInSucceeds(n.entries[path[0]], path[1..], v);
    }
  }

  lemma {:induction false} GetPrefix<K>(n: Node<K>, p: seq<K>, q: seq<K>)
    requires p <= q
    ensures Get(n, q) == match Get(n, p) case Some(m) => Get(m, q[|p|..]) case None => None
  {
    if |p| > 0 {
      Shorter(p, q);
      if n.Map? && p[0] in n.entries {
        GetPrefix(n.entries[p[0]], p[1..], q[1..]);
        assert q[1..][|p| - 1..] == q[|p|..];
      }
    }
  }

  // ----- Ensuring and pruning maps -----

  /** ensureMapInDoc, for a path whose parents are maps. */
  function EnsureMap<K>(n: Node<K>, path: seq<K>): Node<K>
    requires |path| > 0 && IsMap(n, path[..|path| - 1])
  {
    SetInSucceeds(n, path, Empty());
    if IsMap(n, path) then n else SetIn(n, path, Empty()).value
  }

  /** Making a map where there was none shows nothing new: every path but those leading to it reads as before. */
  lemma EnsureMapLaws<K>(n: Node<K>, path: seq<K>, q: seq<K>)
    requires |path| > 0 && IsMap(n, path[..|path| - 1])
    ensures IsMap(EnsureMap(n, path), path)
    ensures !(q <= path) ==> Get(EnsureMap(n, path), q) == Get(n, q)
  {
    SetInSucceeds(n, path, Empty());
    if !IsMap(n, path) {
      GetSetIn(n, path, Empty(), path);
      GetSetIn(n, path, Empty(), q);
      if path <= q { GetPrefix(n, path, q); }
    }
  }

  /** ensureParents, up to the prefix of length k. */
  function EnsureParents<K>(n: Node<K>, path: seq<K>, k: nat): (r: Node<K>)
    requires n.Map? && k < |path|
    ensures r.Map? && IsMap(r, path[..k])
  {
    if k == 0 then n
    else
      var parent := EnsureParents(n, path, k - 1);
      assert path[..k][..k - 1] == path[..k - 1];
      EnsureMapLaws(parent, path[..k], []);
      EnsureMapRoot(parent, path[..k]);
      EnsureMap(parent, path[..k])
  }

  lemma EnsureMapRoot<K>(n: Node<K>, path: seq<K>)
    requires |path| > 0 && IsMap(n, path[..|path| - 1]) && n.Map?
    ensures EnsureMap(n, path).Map?
  {
    SetInSucceeds(n, path, Empty());
  }

  lemma {:induction false} EnsureParentsFrame<K>(n: Node<K>, path: seq<K>, k: nat, q: seq<K>)
    requires n.Map? && k < |path| && !(q <= path)
    ensures Get(EnsureParents(n, path, k), q) == Get(n, q)
  {
    if k > 0 {
      EnsureParentsFrame(n, path, k - 1, q);
      assert path[..k][..k - 1] == path[..k - 1];
      assert !(q <= path[..k]);
      EnsureMapLaws(EnsureParents(n, path, k - 1), path[..k], q);
    }
  }

  function DeleteIfMapEmpty<K>(n: Node<K>, path: seq<K>): Node<K>
    requires |path| > 0
  {
    if Get(n, path) == Some(Empty()) then DeleteIn(n, path) else n
  }

  lemma DeleteIfMapEmptyLaws<K>(n: Node<K>, path: seq<K>, q: seq<K>)
    requires |path| > 0
    ensures Get(DeleteIfMapEmpty(n, path), path) != Some(Empty())
    ensures !(q <= path) ==> Get(DeleteIfMapEmpty(n, path), q) == Get(n, q)
    ensures n.Map? ==> DeleteIfMapEmpty(n, path).Map?
  {
    if Get(n, path) == Some(Empty()) {
      GetDeleteIn(n, path, path);
      GetDeleteIn(n, path, q);
      if path <= q { GetPrefix(n, path, q); }
    }
  }

  /** pruneEmptyParents: the prefixes of length k down to one. */
  function PruneParents<K>(n: Node<K>, path: seq<K>, k: nat): Node<K>
    requires k <= |path|
    decreases k
  {
    if k == 0 then n else PruneParents(DeleteIfMapEmpty(n, path[..k]), path, k - 1)
  }

  /** Pruning shows nothing but the empty maps it removes, and leaves none on the way. */
  lemma {:induction false} PruneParentsLaws<K>(n: Node<K>, path: seq<K>, k: nat, q: seq<K>)
    requires k <= |path|
    ensures !(q <= path[..k]) ==> Get(PruneParents(n, path, k), q) == Get(n, q)
    ensures n.Map? ==> PruneParents(n, path, k).Map?
    ensures forall j | 1 <= j <= k :: Get(PruneParents(n, path, k), path[..j]) != Some(Empty())
    decreases k
  {
    if k > 0 {
      var after := DeleteIfMapEmpty(n, path[..k]);
      DeleteIfMapEmptyLaws(n, path[..k], q);
      PruneParentsLaws(after, path, k - 1, q);
      PruneParentsLaws(after, path, k - 1, path[..k]);
      assert path[..k] <= path[..k - 1] ==> false;
    }
  }

  /** What is right above something is a map, and stays one when it is deleted. */
  lemma {:induction false} MapAbove<K>(n: Node<K>, path: seq<K>)
    requires |path| > 0 && Has(n, path)
    ensures IsMap(n, path[..|path| - 1]) && IsMap(DeleteIn(n, path), path[..|path| - 1])
  {
    if |path| > 1 {
      MapAbove(n.entries[path[0]], path[1..]);
      assert path[..|path| - 1][1..] == path[1..][..|path| - 2];
    }
  }
}
