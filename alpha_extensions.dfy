/**
 * The extension methods of the static class `AlphaExtensions` in Helper.cs:
 * picking a random element, recolouring a sprite, relayering a hierarchy and
 * the vector conversions.
 *
 * Engine floats are modelled as `real`. None of these operations does
 * arithmetic on them; they only copy, drop or replace components.
 */
module AlphaExtensions {
  import opened Wrappers

  // ---------------------------------------------------------------------------
  // Vectors and colours
  // ---------------------------------------------------------------------------

  datatype Vector2 = Vector2(x: real, y: real)
  datatype Vector3 = Vector3(x: real, y: real, z: real)
  datatype Color = Color(r: real, g: real, b: real, a: real)

  /** `ToV2`: the x and y components of a vector. */
  function ToV2(input: Vector3): (r: Vector2)
    ensures r.x == input.x && r.y == input.y
  {
    Vector2(input.x, input.y)
  }

  /** `Flat`: the vector projected onto the horizontal plane (y set to 0). */
  function Flat(input: Vector3): (r: Vector3)
    ensures r.x == input.x && r.y == 0.0 && r.z == input.z
  {
    Vector3(input.x, 0.0, input.z)
  }

  /** `ToV2` loses exactly the z component: together with z it gives the vector back. */
  lemma ToV2LosesOnlyZ(u: Vector3, v: Vector3)
    ensures ToV2(u) == ToV2(v) <==> u.x == v.x && u.y == v.y
    ensures Vector3(ToV2(u).x, ToV2(u).y, u.z) == u
  {
  }

  /** `Flat` loses exactly the y component, leaves flat vectors alone and is idempotent. */
  lemma FlatLosesOnlyY(u: Vector3, v: Vector3)
    ensures Flat(u) == Flat(v) <==> u.x == v.x && u.z == v.z
    ensures Flat(u) == u <==> u.y == 0.0
    ensures Flat(Flat(u)) == Flat(u)
  {
  }

  /** The colour `Fade` writes back: the same colour with alpha replaced. */
  function WithAlpha(color: Color, alpha: real): (r: Color)
    ensures r.r == color.r && r.g == color.g && r.b == color.b && r.a == alpha
  {
    color.(a := alpha)
  }

  /** Fading overwrites: the last alpha wins, and fading to the current alpha changes nothing. */
  lemma WithAlphaOverwrites(color: Color, first: real, second: real)
    ensures WithAlpha(WithAlpha(color, first), second) == WithAlpha(color, second)
    ensures WithAlpha(color, color.a) == color
    ensures WithAlpha(color, first) == color <==> color.a == first
  {
  }

  /** A sprite renderer; only its colour matters here. */
  class SpriteRenderer {
    var color: Color

    constructor (color: Color)
      ensures this.color == color
    {
      this.color := color;
    }
  }

  /** `Fade`: reads the renderer's colour, replaces the alpha and writes it back. */
  method Fade(renderer: SpriteRenderer, alpha: real)
    modifies renderer`color
    ensures renderer.color == WithAlpha(old(renderer.color), alpha)
  {
    var color := renderer.color;
    color := color.(a := alpha);
    renderer.color := color;
  }

  // ---------------------------------------------------------------------------
  // GetRandom
  // ---------------------------------------------------------------------------

  /** The exception that indexing a list or an array with a bad index raises
      (`ArgumentOutOfRangeException` for a `List<T>`, `IndexOutOfRangeException` for an array). */
  datatype IndexError = OutOfRange

  /**
   * What the engine's `Random.Range(minInclusive, maxExclusive)` on ints may
   * return: an int in the half-open range, or `minInclusive` itself when the
   * range is empty because both bounds are equal. What it returns when
   * `minInclusive > maxExclusive` is the engine's business and is not
   * constrained here.
   */
  predicate RangeMayReturn(minInclusive: int, maxExclusive: int, drawn: int)
  {
    if minInclusive < maxExclusive then minInclusive <= drawn < maxExclusive
    else minInclusive == maxExclusive ==> drawn == minInclusive
  }

  /** The upper bound `GetRandom` passes on: 0 stands for "the whole collection",
      so the bound in force is 0 only for the default bounds on an empty collection. */
  function UpperBound(count: nat, finalExclusive: int): (r: int)
    ensures finalExclusive == 0 ==> r == count
    ensures finalExclusive != 0 ==> r == finalExclusive
    ensures r == 0 <==> finalExclusive == 0 && count == 0
  {
    if finalExclusive == 0 then count else finalExclusive
  }

  /**
   * `GetRandom` on an `IList<T>`: `drawn` is what `Random.Range` returned for
   * the bounds in force. The element at that index, or the out-of-range
   * exception when it is not an index of `ts`.
   */
  function GetRandom<T>(ts: seq<T>, initialInclusive: int, finalExclusive: int, drawn: int): (r: Result<T, IndexError>)
    requires RangeMayReturn(initialInclusive, UpperBound(|ts|, finalExclusive), drawn)
    ensures r.Success? <==> 0 <= drawn < |ts|
    ensures r.Success? ==> 0 <= drawn < |ts| && r.value == ts[drawn]
    ensures r.Success? ==> r.value in ts
  {
    if 0 <= drawn < |ts| then Success(ts[drawn]) else Failure(OutOfRange)
  }

  /** `GetRandom` on a `T[]`: the same defaulting and the same selection as on a list. */
  function GetRandomArray<T>(ts: array<T>, initialInclusive: int, finalExclusive: int, drawn: int): (r: Result<T, IndexError>)
    reads ts
    requires RangeMayReturn(initialInclusive, UpperBound(ts.Length, finalExclusive), drawn)
    ensures r == GetRandom(ts[..], initialInclusive, finalExclusive, drawn)
  {
    if 0 <= drawn < ts.Length then Success(ts[drawn]) else Failure(OutOfRange)
  }

  /** The results `GetRandom` can produce for some draw `Random.Range` may return. */
  ghost predicate MayReturn<T>(ts: seq<T>, initialInclusive: int, finalExclusive: int, r: Result<T, IndexError>)
  {
    exists drawn :: RangeMayReturn(initialInclusive, UpperBound(|ts|, finalExclusive), drawn)
                    && GetRandom(ts, initialInclusive, finalExclusive, drawn) == r
  }

  /** An explicit upper bound of 0 cannot be told apart from the default: it admits
      exactly the draws, and so exactly the results, of an upper bound equal to the count. */
  lemma ZeroMeansCount<T>(ts: seq<T>, initialInclusive: int, r: Result<T, IndexError>)
    ensures forall drawn :: RangeMayReturn(initialInclusive, UpperBound(|ts|, 0), drawn)
                            <==> RangeMayReturn(initialInclusive, |ts|, drawn)
    ensures MayReturn(ts, initialInclusive, 0, r) <==> MayReturn(ts, initialInclusive, |ts|, r)
  {
    if MayReturn(ts, initialInclusive, 0, r) {
      var drawn :| RangeMayReturn(initialInclusive, UpperBound(|ts|, 0), drawn)
                   && GetRandom(ts, initialInclusive, 0, drawn) == r;
      assert GetRandom(ts, initialInclusive, |ts|, drawn) == r;
    }
    if MayReturn(ts, initialInclusive, |ts|, r) {
      var drawn :| RangeMayReturn(initialInclusive, UpperBound(|ts|, |ts|), drawn)
                   && GetRandom(ts, initialInclusive, |ts|, drawn) == r;
      assert GetRandom(ts, initialInclusive, 0, drawn) == r;
    }
  }

  /** With the default bounds on a non-empty collection, every element can come out
      and nothing else can: the call never fails. */
  lemma DefaultBoundsReachEveryElement<T>(ts: seq<T>, r: Result<T, IndexError>)
    requires ts != []
    ensures MayReturn(ts, 0, 0, r) <==> r.Success? && r.value in ts
  {
    if r.Success? && r.value in ts {
      var k :| 0 <= k < |ts| && ts[k] == r.value;
      assert RangeMayReturn(0, UpperBound(|ts|, 0), k) && GetRandom(ts, 0, 0, k) == r;
    }
  }

  /** Within a non-empty range of valid indices, the pick never fails and comes from that range. */
  lemma GetRandomPicksInRange<T>(ts: seq<T>, initialInclusive: int, finalExclusive: int, drawn: int)
    requires RangeMayReturn(initialInclusive, UpperBound(|ts|, finalExclusive), drawn)
    requires 0 <= initialInclusive < UpperBound(|ts|, finalExclusive) <= |ts|
    ensures GetRandom(ts, initialInclusive, finalExclusive, drawn).Success?
    ensures GetRandom(ts, initialInclusive, finalExclusive, drawn).value
            in ts[initialInclusive..UpperBound(|ts|, finalExclusive)]
  {
    assert ts[drawn] == ts[initialInclusive..UpperBound(|ts|, finalExclusive)][drawn - initialInclusive];
  }

  /** With the default bounds, an empty collection always raises the out-of-range exception. */
  lemma GetRandomOnEmptyFails<T>(ts: seq<T>, drawn: int)
    requires ts == []
    requires RangeMayReturn(0, UpperBound(|ts|, 0), drawn)
    ensures GetRandom(ts, 0, 0, drawn) == Failure(OutOfRange)
  {
  }

  // ---------------------------------------------------------------------------
  // SetLayersRecursively
  // ---------------------------------------------------------------------------

  /** A hierarchy as a value: a node's layer and its children in transform order. */
  datatype Tree = Tree(layer: int, children: seq<Tree>)

  /** Every node of `t`, at every depth, is on `layer`. */
  ghost predicate Uniform(t: Tree, layer: int)
  {
    t.layer == layer && forall i :: 0 <= i < |t.children| ==> Uniform(t.children[i], layer)
  }

  /** `t` and `u` have the same nodes in the same places, whatever their layers. */
  ghost predicate SameShape(t: Tree, u: Tree)
  {
    |t.children| == |u.children| &&
    forall i :: 0 <= i < |t.children| ==> SameShape(t.children[i], u.children[i])
  }

  /** The hierarchy after `SetLayersRecursively(layer)`: the root first, then each child in turn. */
  function Relayer(t: Tree, layer: int): (r: Tree)
  {
    Tree(layer, seq(|t.children|, i requires 0 <= i < |t.children| => Relayer(t.children[i], layer)))
  }

  /** The relayered hierarchy keeps its shape and has `layer` on every node at every depth. */
  lemma {:induction false} RelayerIsUniform(t: Tree, layer: int)
    ensures SameShape(t, Relayer(t, layer)) && Uniform(Relayer(t, layer), layer)
  {
    forall i | 0 <= i < |t.children|
      ensures SameShape(t.children[i], Relayer(t, layer).children[i])
      ensures Uniform(Relayer(t, layer).children[i], layer)
    {
      RelayerIsUniform(t.children[i], layer);
    }
  }

  /** Conversely, a hierarchy of the same shape with `layer` everywhere is the relayered one:
      the two properties above pin the result down. */
  lemma {:induction false} UniformOfSameShapeIsRelayer(t: Tree, u: Tree, layer: int)
    requires SameShape(t, u) && Uniform(u, layer)
    ensures u == Relayer(t, layer)
  {
    forall i | 0 <= i < |t.children|
      ensures u.children[i] == Relayer(t, layer).children[i]
    {
      UniformOfSameShapeIsRelayer(t.children[i], u.children[i], layer);
    }
  }

  /** Layers are overwritten unconditionally: only the last call counts. */
  lemma {:induction false} RelayerOverwrites(t: Tree, first: int, second: int)
    ensures Relayer(Relayer(t, first), second) == Relayer(t, second)
  {
    forall i | 0 <= i < |t.children|
      ensures Relayer(Relayer(t, first), second).children[i] == Relayer(t, second).children[i]
    {
      RelayerOverwrites(t.children[i], first, second);
    }
  }

  /** The objects a list of children and their descendants take up. */
  ghost function Footprints(cs: seq<GameObject>): set<GameObject>
    decreases |cs|
  {
    if cs == [] then {} else Footprints(cs[..|cs| - 1]) + cs[|cs| - 1].repr
  }

  lemma {:induction false} InFootprints(cs: seq<GameObject>, o: GameObject)
    ensures o in Footprints(cs) <==> exists j :: 0 <= j < |cs| && o in cs[j].repr
  {
    if cs != [] {
      var front := cs[..|cs| - 1];
      InFootprints(front, o);
      if o in Footprints(front) {
        var j :| 0 <= j < |front| && o in front[j].repr;
        assert o in cs[j].repr;
      } else if o !in cs[|cs| - 1].repr {
        forall j | 0 <= j < |cs| ensures o !in cs[j].repr {
          if j < |cs| - 1 { assert cs[j] == front[j]; }
        }
      }
    }
  }

  /** Children whose subtrees are valid and pairwise disjoint: what one parent may hold. */
  ghost predicate ValidSiblings(cs: seq<GameObject>)
  {
    && (forall c :: c in cs ==> c.Valid())
    && (forall i, j :: 0 <= i < j < |cs| ==> cs[i].repr !! cs[j].repr)
  }

  /**
   * A game object with its transform's children, in transform order. `repr`
   * is the set of objects of its subtree: itself and its descendants. The
   * hierarchy is fixed while layers are set, so both are constants here.
   */
  class GameObject {
    var layer: int
    const children: seq<GameObject>
    ghost const repr: set<GameObject>

    /** The hierarchy under this object is a finite tree: no object is its own
        descendant, siblings share no descendants, and `repr` holds exactly
        this object and its descendants. */
    ghost predicate Valid()
      decreases repr
    {
      && this in repr
      && (forall c :: c in children ==> c in repr && c.repr <= repr && this !in c.repr)
      && (forall i, j :: 0 <= i < j < |children| ==> children[i].repr !! children[j].repr)
      && repr == {this} + Footprints(children)
      && (forall c :: c in children ==> c.Valid())
    }

    /** A new object on `layer` whose transform holds `children`. */
    constructor (layer: int, children: seq<GameObject>)
      requires ValidSiblings(children)
      ensures Valid() && this.layer == layer && this.children == children
      ensures repr == {this} + Footprints(children)
    {
      this.layer := layer;
      this.children := children;
      this.repr := {this} + Footprints(children);
      new;
      forall c | c in children ensures c in repr && c.repr <= repr && this !in c.repr {
        var j :| 0 <= j < |children| && children[j] == c;
        forall o | o in c.repr ensures o in Footprints(children) {
          InFootprints(children, o);
        }
      }
    }

    /** The subtree under this object as a value. */
    ghost function Abstract(): Tree
      reads repr
      requires Valid()
      decreases repr
    {
      Tree(layer, seq(|children|, i requires 0 <= i < |children| && Valid() reads repr => children[i].Abstract()))
    }

    /** The subtree's value is built from this object's layer and its children's values. */
    lemma AbstractFromChildren(before: Tree, layer: int)
      requires Valid() && this.layer == layer && |before.children| == |children|
      requires forall j :: 0 <= j < |children| ==> children[j].Abstract() == Relayer(before.children[j], layer)
      ensures Abstract() == Relayer(before, layer)
    {
    }

    /** When the subtree's value has `layer` everywhere, so does every object of the subtree. */
    lemma {:induction false} UniformObjects(layer: int)
      requires Valid() && Uniform(Abstract(), layer)
      ensures forall o :: o in repr ==> o.layer == layer
      decreases repr
    {
      forall o | o in repr ensures o.layer == layer {
        if o != this {
          InFootprints(children, o);
          var j :| 0 <= j < |children| && o in children[j].repr;
          assert Abstract().children[j] == children[j].Abstract();
          children[j].UniformObjects(layer);
        }
      }
    }
  }

  /**
   * `SetLayersRecursively`: sets the object's layer, then recurses into each
   * child in transform order. Only `layer` fields of the subtree may change.
   */
  method SetLayersRecursively(gameObject: GameObject, layer: int)
    requires gameObject.Valid()
    modifies gameObject.repr`layer
    decreases gameObject.repr
    ensures gameObject.Abstract() == Relayer(old(gameObject.Abstract()), layer)
    ensures forall o :: o in gameObject.repr ==> o.layer == layer
  {
    gameObject.layer := layer;
    var children := gameObject.children;
    for i := 0 to |children|
      invariant gameObject.layer == layer
      invariant forall j :: 0 <= j < |children| ==>
                  children[j].Abstract() == if j < i then Relayer(old(children[j].Abstract()), layer)
                                            else old(children[j].Abstract())
    {
      label before:
      SetLayersRecursively(children[i], layer);
      assert forall j :: 0 <= j < |children| && j != i ==>
               children[j].Abstract() == old@before(children[j].Abstract());
    }
    gameObject.AbstractFromChildren(old(gameObject.Abstract()), layer);
    RelayerIsUniform(old(gameObject.Abstract()), layer);
    gameObject.UniformObjects(layer);
  }
}
