/**
  The batching rule of a material chain as values: a chain segment counts
  the vertices and triangle-list indices its surfaces will need, and a
  surface that would take the vertex count to MATERIALCHAIN_MAX_VERTS or
  beyond is handed to the overflow handler instead of being linked in.
  MaterialChain_AddSurf links at the head (last in, first out);
  MaterialChain_AddSurf_Tail links at the tail (submission order).
*/
module MaterialBatch {
  import opened Wrappers

  /** MATERIALCHAIN_MAX_VERTS: the vertex budget of one chain segment. */
  const MaxVerts := 65536

  /** What a chain segment holds: its counters and its surfaces, first to last as the chain links them. */
  datatype Batch = Batch(numverts: int, numindices: int, surfs: seq<nat>)

  /** A surface handed to the chain: its index, its edge count, and whether it has a poly to draw. */
  datatype Submission = Submission(surf: nat, numedges: int, hasPoly: bool)

  /** The guard of MaterialChain_AddSurf and MaterialChain_AddSurf_Tail. */
  predicate Overflows(numverts: int, numedges: int)
  {
    numverts + numedges >= MaxVerts
  }

  /** A surface with `numedges` edges is drawn as a fan of numedges - 2 triangles. */
  function Indices(numedges: int): int
  {
    3 * (numedges - 2)
  }

  /**
    One MaterialChain_AddSurf: None when the overflow handler takes over;
    otherwise a surface without a poly changes nothing and one with a poly
    becomes the new head with the counters raised.
  */
  function AddFront(b: Batch, s: Submission): (r: Option<Batch>)
    ensures r.None? <==> s.hasPoly && Overflows(b.numverts, s.numedges)
    ensures r.Some? && s.hasPoly ==>
              r.value.surfs == [s.surf] + b.surfs
              && r.value.numverts == b.numverts + s.numedges < MaxVerts
              && r.value.numindices == b.numindices + Indices(s.numedges)
    ensures r.Some? && !s.hasPoly ==> r.value == b
  {
    if !s.hasPoly then Some(b)
    else if Overflows(b.numverts, s.numedges) then None
    else Some(Batch(b.numverts + s.numedges, b.numindices + Indices(s.numedges), [s.surf] + b.surfs))
  }

  /** One MaterialChain_AddSurf_Tail: as AddFront, but the surface becomes the last of the chain. */
  function AddBack(b: Batch, s: Submission): (r: Option<Batch>)
    ensures r.None? <==> s.hasPoly && Overflows(b.numverts, s.numedges)
    ensures r.Some? && s.hasPoly ==>
              r.value.surfs == b.surfs + [s.surf]
              && r.value.numverts == b.numverts + s.numedges < MaxVerts
              && r.value.numindices == b.numindices + Indices(s.numedges)
    ensures r.Some? && !s.hasPoly ==> r.value == b
  {
    if !s.hasPoly then Some(b)
    else if Overflows(b.numverts, s.numedges) then None
    else Some(Batch(b.numverts + s.numedges, b.numindices + Indices(s.numedges), b.surfs + [s.surf]))
  }

  /** Submitting `subs` in order through MaterialChain_AddSurf; None once one of them overflows. */
  function BuildFront(b: Batch, subs: seq<Submission>): Option<Batch>
    decreases |subs|
  {
    if subs == [] then Some(b)
    else match AddFront(b, subs[0])
      case None => None
      case Some(b') => BuildFront(b', subs[1..])
  }

  /** Submitting `subs` in order through MaterialChain_AddSurf_Tail. */
  function BuildBack(b: Batch, subs: seq<Submission>): Option<Batch>
    decreases |subs|
  {
    if subs == [] then Some(b)
    else match AddBack(b, subs[0])
      case None => None
      case Some(b') => BuildBack(b', subs[1..])
  }

  // ---------------------------------------------------------------------
  // Reference definitions

  /** The surfaces of `subs` that have a poly, in submission order. */
  function Renderable(subs: seq<Submission>): seq<nat>
    decreases |subs|
  {
    if subs == [] then []
    else (if subs[0].hasPoly then [subs[0].surf] else []) + Renderable(subs[1..])
  }

  /** The vertices the renderable surfaces of `subs` need. */
  function EdgeSum(subs: seq<Submission>): int
    decreases |subs|
  {
    if subs == [] then 0
    else (if subs[0].hasPoly then subs[0].numedges else 0) + EdgeSum(subs[1..])
  }

  /** The triangle-list indices the renderable surfaces of `subs` need. */
  function IndexSum(subs: seq<Submission>): int
    decreases |subs|
  {
    if subs == [] then 0
    else (if subs[0].hasPoly then Indices(subs[0].numedges) else 0) + IndexSum(subs[1..])
  }

  /** The elements of `s`, last first. */
  function Reverse<T>(s: seq<T>): (r: seq<T>)
    ensures |r| == |s|
    ensures forall i :: 0 <= i < |s| ==> r[i] == s[|s| - 1 - i]
    decreases |s|
  {
    if s == [] then [] else Reverse(s[1..]) + [s[0]]
  }

  // ---------------------------------------------------------------------
  // What the two ways of adding promise

  /**
    Without an overflow, MaterialChain_AddSurf leaves the renderable
    surfaces in reverse submission order in front of what the chain held,
    with the counters raised by their vertices and indices.
  */
  lemma {:induction false} FrontReversesSubmissions(b: Batch, subs: seq<Submission>)
    requires BuildFront(b, subs).Some?
    ensures var r := BuildFront(b, subs).value;
            r.surfs == Reverse(Renderable(subs)) + b.surfs
            && r.numverts == b.numverts + EdgeSum(subs)
            && r.numindices == b.numindices + IndexSum(subs)
    decreases |subs|
  {
    if subs != [] {
      var b' := AddFront(b, subs[0]).value;
      FrontReversesSubmissions(b', subs[1..]);
      var rest := Renderable(subs[1..]);
      if subs[0].hasPoly {
        calc {
          Reverse(Renderable(subs)) + b.surfs;
          Reverse([subs[0].surf] + rest) + b.surfs;
          { assert ([subs[0].surf] + rest)[1..] == rest; }
          (Reverse(rest) + [subs[0].surf]) + b.surfs;
          Reverse(rest) + ([subs[0].surf] + b.surfs);
        }
      } else {
        assert Renderable(subs) == rest;
      }
    }
  }

  /**
    Without an overflow, MaterialChain_AddSurf_Tail leaves the renderable
    surfaces in submission order after what the chain held, with the same
    counters.
  */
  lemma {:induction false} BackKeepsSubmissionOrder(b: Batch, subs: seq<Submission>)
    requires BuildBack(b, subs).Some?
    ensures var r := BuildBack(b, subs).value;
            r.surfs == b.surfs + Renderable(subs)
            && r.numverts == b.numverts + EdgeSum(subs)
            && r.numindices == b.numindices + IndexSum(subs)
    decreases |subs|
  {
    if subs != [] {
      var b' := AddBack(b, subs[0]).value;
      BackKeepsSubmissionOrder(b', subs[1..]);
      if subs[0].hasPoly {
        assert b'.surfs + Renderable(subs[1..]) == b.surfs + ([subs[0].surf] + Renderable(subs[1..]));
      }
    }
  }

  /** The overflow guard reads only the counters, which both ways raise alike: they overflow on the same inputs. */
  lemma {:induction false} FrontAndBackOverflowAlike(b: Batch, c: Batch, subs: seq<Submission>)
    requires b.numverts == c.numverts
    ensures BuildFront(b, subs).Some? <==> BuildBack(c, subs).Some?
    ensures BuildFront(b, subs).Some? ==> BuildFront(b, subs).value.numverts == BuildBack(c, subs).value.numverts
    decreases |subs|
  {
    if subs != [] {
      var f := AddFront(b, subs[0]);
      var k := AddBack(c, subs[0]);
      if f.Some? {
        FrontAndBackOverflowAlike(f.value, k.value, subs[1..]);
      }
    }
  }

  /**
    From an empty chain the two ways of adding give the same surfaces in
    opposite orders.
  */
  lemma FrontIsBackReversed(numverts: int, subs: seq<Submission>)
    requires BuildFront(Batch(numverts, 0, []), subs).Some?
    ensures BuildBack(Batch(numverts, 0, []), subs).Some?
    ensures BuildFront(Batch(numverts, 0, []), subs).value.surfs
            == Reverse(BuildBack(Batch(numverts, 0, []), subs).value.surfs)
  {
    var e := Batch(numverts, 0, []);
    FrontAndBackOverflowAlike(e, e, subs);
    FrontReversesSubmissions(e, subs);
    BackKeepsSubmissionOrder(e, subs);
    assert Reverse(Renderable(subs)) + [] == Reverse(Renderable(subs));
    assert [] + Renderable(subs) == Renderable(subs);
  }

  /** Edge counts of drawn surfaces are never negative. */
  predicate EdgesNonNegative(subs: seq<Submission>)
  {
    forall k :: 0 <= k < |subs| ==> subs[k].numedges >= 0
  }

  lemma {:induction false} EdgeSumNonNegative(subs: seq<Submission>)
    requires EdgesNonNegative(subs)
    ensures EdgeSum(subs) >= 0
    decreases |subs|
  {
    if subs != [] {
      EdgeSumNonNegative(subs[1..]);
    }
  }

  /**
    With edge counts that are not negative, a run of submissions goes
    through without an overflow exactly when none of them has a poly or
    the chain's vertex count plus all their edges stays below the budget.
  */
  lemma {:induction false} NoOverflowWithinBudget(b: Batch, subs: seq<Submission>)
    requires EdgesNonNegative(subs)
    ensures BuildFront(b, subs).Some? <==> Renderable(subs) == [] || b.numverts + EdgeSum(subs) < MaxVerts
    decreases |subs|
  {
    if subs != [] {
      var s := subs[0];
      EdgeSumNonNegative(subs[1..]);
      if !s.hasPoly {
        NoOverflowWithinBudget(b, subs[1..]);
      } else if !Overflows(b.numverts, s.numedges) {
        NoOverflowWithinBudget(AddFront(b, s).value, subs[1..]);
        if Renderable(subs[1..]) == [] {
          NothingRenderable(AddFront(b, s).value, subs[1..]);
        }
      }
    }
  }

  /** A chain that took at least one surface without an overflow stays strictly inside the budget. */
  lemma {:induction false} BudgetKept(b: Batch, subs: seq<Submission>)
    requires BuildFront(b, subs).Some? && Renderable(subs) != []
    ensures BuildFront(b, subs).value.numverts < MaxVerts
    decreases |subs|
  {
    var s := subs[0];
    var b' := AddFront(b, s).value;
    if Renderable(subs[1..]) != [] {
      BudgetKept(b', subs[1..]);
    } else {
      assert s.hasPoly;
      NothingRenderable(b', subs[1..]);
    }
  }

  lemma {:induction false} NothingRenderable(b: Batch, subs: seq<Submission>)
    requires Renderable(subs) == []
    ensures BuildFront(b, subs) == Some(b) && EdgeSum(subs) == 0
    decreases |subs|
  {
    if subs != [] {
      assert !subs[0].hasPoly;
      NothingRenderable(b, subs[1..]);
    }
  }
}
