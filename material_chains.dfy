/**
  The material chains of a brush model as the renderer updates them in
  place: an array of chain headers (materialchain_t), the `chain` link of
  every surface, and the overflow segments taken from the zone allocator.
  Surfaces and segments are named by index; a pointer is a Link or a
  SegRef.
*/
module MaterialChains {
  import opened Wrappers
  import opened MaterialBatch

  /** An `msurface_t *`: NULL or a surface. */
  datatype Link = Nil | Surf(index: nat)

  /** A `materialchain_t *`: NULL, a header of the chain array, or an overflow segment in the zone. */
  datatype SegRef = NoSeg | Slot(chain: nat) | Heap(id: nat)

  /** materialchain_t. */
  datatype Header = Header(numverts: int, numindices: int, surf: Link, overflow: SegRef, overflowTail: SegRef)

  /** A header after memset to 0. */
  const ZeroHeader := Header(0, 0, Nil, NoSeg, NoSeg)

  /**
    What the caller's tail (`*tail`) refers to: the head slot of a chain
    whose list is still empty, or the last surface of the list; its
    `chain` link is where the next surface is attached.
  */
  datatype Tail = AtHead(chain: nat) | AtSurf(surf: nat)

  /**
    A call of MaterialChain_HandleOverflow: its arguments (None is a NULL
    tail) and the header of the chain as the handler left it.
  */
  datatype OverflowCall = OverflowCall(chain: nat, surf: nat, tail: Option<Tail>, left: Header)

  predicate Distinct<T(==)>(l: seq<T>)
  {
    forall i, j :: 0 <= i < j < |l| ==> l[i] != l[j]
  }

  predicate Disjoint(a: seq<nat>, b: seq<nat>)
  {
    forall x :: x in a ==> x !in b
  }

  class ChainStore {
    /** surf->numedges and whether surf->poly is set; the add operations only read them. */
    const numedges: seq<int>
    const hasPoly: seq<bool>
    /** surf->chain of every surface. */
    const link: array<Link>
    /** The materialchains array of a brush model. */
    const chains: array<Header>
    /** Overflow segments allocated from the zone and not yet freed. */
    var zone: map<nat, Header>
    /** The surfaces each header's list links, first to last. */
    ghost var lists: seq<seq<nat>>
    /** The calls made to the overflow handler so far. */
    ghost var handled: seq<OverflowCall>

    /** The lengths of the surface and chain tables agree with what describes them. */
    ghost predicate Shape()
      reads this
    {
      |numedges| == link.Length && |hasPoly| == link.Length && |lists| == chains.Length
    }

    /** Following the links `lk` from `start` visits exactly `l` and ends in NULL. */
    static ghost predicate Threads(lk: seq<Link>, start: Link, l: seq<nat>)
      decreases |l|
    {
      if l == [] then start == Nil
      else start == Surf(l[0]) && l[0] < |lk| && Threads(lk, lk[l[0]], l[1..])
    }

    /**
      Every header's list is threaded through the surfaces' links, holds
      no surface twice, and shares no surface with another header's list.
    */
    ghost predicate Valid()
      reads this, link, chains
    {
      Shape()
      && (forall m :: 0 <= m < chains.Length ==> Threads(link[..], chains[m].surf, lists[m]))
      && (forall m :: 0 <= m < chains.Length ==> Distinct(lists[m]))
      && (forall m, n :: 0 <= m < n < chains.Length ==> Disjoint(lists[m], lists[n]))
    }

    /** Surface `s` is on no header's list. */
    ghost predicate Unchained(s: nat)
      reads this
      requires Shape()
    {
      forall m :: 0 <= m < chains.Length ==> s !in lists[m]
    }

    /** `t` is where the next surface of chain `m` is attached: its head slot when empty, else its last surface. */
    ghost predicate TailOf(m: nat, t: Tail)
      reads this
      requires Shape() && m < chains.Length
    {
      (lists[m] == [] ==> t == AtHead(m))
      && (lists[m] != [] ==> t == AtSurf(lists[m][|lists[m]| - 1]))
    }

    /** Chain `m` as a value: its counters and its surfaces. */
    ghost function View(m: nat): Batch
      reads this, chains
      requires Shape() && m < chains.Length
    {
      Batch(chains[m].numverts, chains[m].numindices, lists[m])
    }

    /** Surface `s` as MaterialBatch submits it. */
    function SubOf(s: nat): Submission
      reads this
      requires s < |numedges| && s < |hasPoly|
    {
      Submission(s, numedges[s], hasPoly[s])
    }

    /** A store of `|numedges|` unlinked surfaces and `count` zeroed chain headers. */
    constructor (numedges: seq<int>, hasPoly: seq<bool>, count: nat)
      requires |hasPoly| == |numedges|
      ensures Valid()
      ensures this.numedges == numedges && this.hasPoly == hasPoly
      ensures chains.Length == count && forall m :: 0 <= m < count ==> chains[m] == ZeroHeader && lists[m] == []
      ensures zone == map[] && handled == []
    {
      this.numedges := numedges;
      this.hasPoly := hasPoly;
      link := new Link[|numedges|](_ => Nil);
      chains := new Header[count](_ => ZeroHeader);
      zone := map[];
      lists := seq(count, _ => []);
      handled := [];
    }

    /** The lists after the first `count` of them are emptied. */
    static ghost function ClearFirst(l: seq<seq<nat>>, count: nat): (r: seq<seq<nat>>)
      requires count <= |l|
      ensures |r| == |l|
      ensures forall i :: 0 <= i < |l| ==> r[i] == (if i < count then [] else l[i])
    {
      seq(|l|, i requires 0 <= i < |l| => if i < count then [] else l[i])
    }

    /**
      MaterialChains_Init: the first `count` headers are zeroed (no
      surfaces, no overflow segments, counters 0) and the rest are as they
      were. Clearing every header makes the store valid whatever it held.
    */
    method MaterialChainsInit(count: int)
      requires Shape() && 0 <= count <= chains.Length
      modifies chains, this`lists
      ensures Shape()
      ensures forall i :: 0 <= i < count ==> chains[i] == ZeroHeader && lists[i] == []
      ensures forall i :: count <= i < chains.Length ==> chains[i] == old(chains[i]) && lists[i] == old(lists[i])
      ensures old(Valid()) || count == chains.Length ==> Valid()
    {
      // memset
      forall i | 0 <= i < count {
        chains[i] := ZeroHeader;
      }
      lists := ClearFirst(lists, count);
      assert link[..] == old(link[..]);
    }

    /**
      MaterialChains_Init_Reverse: as MaterialChains_Init, except that the
      overflow tail of each cleared header refers to the header itself.
    */
    method MaterialChainsInitReverse(count: int)
      requires Shape() && 0 <= count <= chains.Length
      modifies chains, this`lists
      ensures Shape()
      ensures forall i :: 0 <= i < count ==> chains[i] == ZeroHeader.(overflowTail := Slot(i)) && lists[i] == []
      ensures forall i :: count <= i < chains.Length ==> chains[i] == old(chains[i]) && lists[i] == old(lists[i])
      ensures old(Valid()) || count == chains.Length ==> Valid()
    {
      MaterialChainsInit(count);
      for i := 0 to count
        invariant Shape()
        invariant forall j :: 0 <= j < i ==> chains[j] == ZeroHeader.(overflowTail := Slot(j))
        invariant forall j :: i <= j < count ==> chains[j] == ZeroHeader
        invariant forall j :: 0 <= j < count ==> lists[j] == []
        invariant forall j :: count <= j < chains.Length ==> chains[j] == old(chains[j]) && lists[j] == old(lists[j])
        invariant old(Valid()) || count == chains.Length ==> Valid()
      {
        chains[i] := chains[i].(overflowTail := Slot(i));
      }
    }

    /**
      MaterialChain_HandleOverflow is only declared where the chains are
      defined. This model of it is free to change any header, link or zone
      segment as long as the store stays valid, and records the call; its
      body changes nothing else.
    */
    method HandleOverflow(m: nat, s: nat, tail: Option<Tail>) returns (newTail: Option<Tail>)
      requires Valid() && m < chains.Length && s < link.Length
      modifies chains, link, this`zone, this`lists, this`handled
      ensures Valid()
      ensures handled == old(handled) + [OverflowCall(m, s, tail, chains[m])]
      ensures newTail.None? <==> tail.None?
    {
      handled := handled + [OverflowCall(m, s, tail, chains[m])];
      newTail := tail;
    }

    /**
      MaterialChain_AddSurf: a surface without a poly changes nothing. A
      surface that would take the vertex count to the budget or beyond goes
      to the overflow handler; any other becomes the head of the list, its
      link the previous head. In both cases the header then gains the
      surface's vertices and indices: on top of what the handler left, or
      of what it held.
    */
    method AddSurf(m: nat, s: nat)
      requires Valid() && m < chains.Length && s < link.Length && Unchained(s)
      modifies chains, link, this`zone, this`lists, this`handled
      ensures Valid()
      ensures !hasPoly[s] ==>
                unchanged(chains) && unchanged(link) && zone == old(zone) && lists == old(lists) && handled == old(handled)
      ensures !(hasPoly[s] && Overflows(old(chains[m].numverts), numedges[s])) ==> handled == old(handled)
      ensures hasPoly[s] && Overflows(old(chains[m].numverts), numedges[s]) ==>
                |handled| == |old(handled)| + 1
                && var left := handled[|old(handled)|].left;
                   handled == old(handled) + [OverflowCall(m, s, None, left)]
                   && chains[m] == left.(numverts := left.numverts + numedges[s],
                                         numindices := left.numindices + Indices(numedges[s]))
      ensures hasPoly[s] && !Overflows(old(chains[m].numverts), numedges[s]) ==>
                Some(View(m)) == AddFront(old(View(m)), SubOf(s))
                && chains[m].numverts < MaxVerts
                && chains[m] == old(chains[m]).(numverts := chains[m].numverts, numindices := chains[m].numindices, surf := Surf(s))
                && link[s] == old(chains[m].surf)
                && (forall j :: 0 <= j < chains.Length && j != m ==> chains[j] == old(chains[j]) && lists[j] == old(lists[j]))
                && (forall t :: 0 <= t < link.Length && t != s ==> link[t] == old(link[t]))
                && zone == old(zone)
    {
      if hasPoly[s] {
        if chains[m].numverts + numedges[s] >= MaxVerts {
          var _ := HandleOverflow(m, s, None);
        } else {
          LinkAtHead(m, s);
        }
        chains[m] := chains[m].(numverts := chains[m].numverts + numedges[s]);
        chains[m] := chains[m].(numindices := chains[m].numindices + (numedges[s] - 2) * 3);
      }
    }

    /**
      MaterialChain_AddSurf_Tail: as MaterialChain_AddSurf, but a surface
      that fits is unlinked from what follows it, attached to the link the
      tail refers to, and becomes the new tail, so the list keeps
      submission order and the tail stays its last surface. On an overflow
      the handler gets the tail and decides where it ends up.
    */
    method AddSurfTail(m: nat, s: nat, tail: Tail) returns (newTail: Tail)
      requires Valid() && m < chains.Length && s < link.Length && Unchained(s) && TailOf(m, tail)
      modifies chains, link, this`zone, this`lists, this`handled
      ensures Valid()
      ensures !hasPoly[s] ==>
                unchanged(chains) && unchanged(link) && zone == old(zone) && lists == old(lists) && handled == old(handled)
                && newTail == tail
      ensures !(hasPoly[s] && Overflows(old(chains[m].numverts), numedges[s])) ==> handled == old(handled)
      ensures hasPoly[s] && Overflows(old(chains[m].numverts), numedges[s]) ==>
                |handled| == |old(handled)| + 1
                && var left := handled[|old(handled)|].left;
                   handled == old(handled) + [OverflowCall(m, s, Some(tail), left)]
                   && chains[m] == left.(numverts := left.numverts + numedges[s],
                                         numindices := left.numindices + Indices(numedges[s]))
      ensures hasPoly[s] && !Overflows(old(chains[m].numverts), numedges[s]) ==>
                Some(View(m)) == AddBack(old(View(m)), SubOf(s))
                && chains[m].numverts < MaxVerts
                && TailOf(m, newTail) && newTail == AtSurf(s)
                && chains[m] == old(chains[m]).(numverts := chains[m].numverts, numindices := chains[m].numindices,
                                                surf := if old(lists[m]) == [] then Surf(s) else old(chains[m].surf))
                && link[s] == Nil
                && (tail.AtSurf? ==> tail.surf < link.Length && link[tail.surf] == Surf(s))
                && (forall j :: 0 <= j < chains.Length && j != m ==> chains[j] == old(chains[j]) && lists[j] == old(lists[j]))
                && (forall t :: 0 <= t < link.Length && t != s && tail != AtSurf(t) ==> link[t] == old(link[t]))
                && zone == old(zone)
    {
      newTail := tail;
      if hasPoly[s] {
        if chains[m].numverts + numedges[s] >= MaxVerts {
          var t := HandleOverflow(m, s, Some(tail));
          newTail := t.value;
        } else {
          newTail := LinkAtTail(m, s, tail);
        }
        chains[m] := chains[m].(numverts := chains[m].numverts + numedges[s]);
        chains[m] := chains[m].(numindices := chains[m].numindices + (numedges[s] - 2) * 3);
      }
    }

    /** The linking MaterialChain_AddSurf does when the surface fits: it becomes the head, its link the old head. */
    method LinkAtHead(m: nat, s: nat)
      requires Valid() && m < chains.Length && s < link.Length && Unchained(s)
      modifies chains, link, this`lists
      ensures Valid()
      ensures lists == old(lists)[m := [s] + old(lists[m])]
      ensures chains[m] == old(chains[m]).(surf := Surf(s))
      ensures link[s] == old(chains[m].surf)
      ensures forall j :: 0 <= j < chains.Length && j != m ==> chains[j] == old(chains[j])
      ensures forall t :: 0 <= t < link.Length && t != s ==> link[t] == old(link[t])
    {
      PushFrontKeepsValid(m, s);
      ghost var lk := link[..];
      link[s] := chains[m].surf;
      chains[m] := chains[m].(surf := Surf(s));
      lists := lists[m := [s] + lists[m]];
      assert link[..] == lk[s := old(chains[m].surf)];
      forall n | 0 <= n < chains.Length
        ensures Threads(link[..], chains[n].surf, lists[n])
      {
        if n == m {
          ThreadsPushFront(lk, old(chains[m].surf), old(lists[m]), s);
        } else {
          ThreadsUntouched(lk, chains[n].surf, lists[n], s, old(chains[m].surf));
        }
      }
    }

    /**
      The linking MaterialChain_AddSurf_Tail does when the surface fits: its
      link is cleared, the link the tail refers to is pointed at it, and it
      becomes the tail. No other link changes.
    */
    method LinkAtTail(m: nat, s: nat, tail: Tail) returns (newTail: Tail)
      requires Valid() && m < chains.Length && s < link.Length && Unchained(s) && TailOf(m, tail)
      modifies chains, link, this`lists
      ensures Valid()
      ensures lists == old(lists)[m := old(lists[m]) + [s]]
      ensures chains[m] == old(chains[m]).(surf := if old(lists[m]) == [] then Surf(s) else old(chains[m].surf))
      ensures link[s] == Nil && newTail == AtSurf(s)
      ensures tail.AtSurf? ==> tail.surf < link.Length && link[tail.surf] == Surf(s)
      ensures forall j :: 0 <= j < chains.Length && j != m ==> chains[j] == old(chains[j])
      ensures forall t :: 0 <= t < link.Length && t != s && tail != AtSurf(t) ==> link[t] == old(link[t])
    {
      match tail {
        case AtHead(_) =>
          assert lists[m] + [s] == [s];
          LinkFirst(m, s);
        case AtSurf(last) =>
          LinkAfter(m, s, last);
      }
      newTail := AtSurf(s);
    }

    /** Attaching to the head slot of an empty chain: the surface becomes its only one. */
    method LinkFirst(m: nat, s: nat)
      requires Valid() && m < chains.Length && s < link.Length && Unchained(s) && lists[m] == []
      modifies chains, link, this`lists
      ensures Valid()
      ensures lists == old(lists)[m := [s]]
      ensures chains[m] == old(chains[m]).(surf := Surf(s))
      ensures link[s] == Nil
      ensures forall j :: 0 <= j < chains.Length && j != m ==> chains[j] == old(chains[j])
      ensures forall t :: 0 <= t < link.Length && t != s ==> link[t] == old(link[t])
    {
      PushBackKeepsValid(m, s);
      ghost var lk := link[..];
      link[s] := Nil;
      chains[m] := chains[m].(surf := Surf(s));
      lists := lists[m := [s]];
      assert link[..] == lk[s := Nil];
      forall n | 0 <= n < chains.Length
        ensures Threads(link[..], chains[n].surf, lists[n])
      {
        if n == m {
          assert lists[m][1..] == [];
        } else {
          ThreadsUntouched(lk, chains[n].surf, lists[n], s, Nil);
        }
      }
    }

    /** Attaching after the last surface of a chain: that surface's link now refers to the new one. */
    method LinkAfter(m: nat, s: nat, last: nat)
      requires Valid() && m < chains.Length && s < link.Length && Unchained(s)
      requires lists[m] != [] && last == lists[m][|lists[m]| - 1]
      modifies link, this`lists
      ensures Valid()
      ensures lists == old(lists)[m := old(lists[m]) + [s]]
      ensures link[s] == Nil && last < link.Length && link[last] == Surf(s)
      ensures forall t :: 0 <= t < link.Length && t != s && t != last ==> link[t] == old(link[t])
    {
      PushBackKeepsValid(m, s);
      ThreadsBounds(link[..], chains[m].surf, lists[m]);
      ghost var lk := link[..];
      link[s] := Nil;
      link[last] := Surf(s);
      lists := lists[m := lists[m] + [s]];
      assert link[..] == lk[s := Nil][last := Surf(s)];
      forall n | 0 <= n < chains.Length
        ensures Threads(link[..], chains[n].surf, lists[n])
      {
        if n == m {
          ThreadsPushBack(lk, old(chains[m].surf), old(lists[m]), s);
        } else {
          ThreadsUntouched(lk, chains[n].surf, lists[n], s, Nil);
          assert last in old(lists[m]);
          assert m < n ==> Disjoint(old(lists[m]), old(lists[n]));
          assert n < m ==> Disjoint(old(lists[n]), old(lists[m]));
          ThreadsUntouched(lk[s := Nil], chains[n].surf, lists[n], last, Surf(s));
        }
      }
    }

    /** Changing the link of a surface that is not on a list leaves that list threaded. */
    static lemma {:induction false} ThreadsUntouched(lk: seq<Link>, start: Link, l: seq<nat>, t: nat, v: Link)
      requires Threads(lk, start, l) && t < |lk| && t !in l
      ensures Threads(lk[t := v], start, l)
      decreases |l|
    {
      if l != [] {
        assert l[0] != t;
        assert forall x :: x in l[1..] ==> x in l;
        ThreadsUntouched(lk, lk[l[0]], l[1..], t, v);
      }
    }

    /** The surfaces of a threaded list are surfaces of the table. */
    static lemma {:induction false} ThreadsBounds(lk: seq<Link>, start: Link, l: seq<nat>)
      requires Threads(lk, start, l)
      ensures forall k :: 0 <= k < |l| ==> l[k] < |lk|
      decreases |l|
    {
      if l != [] {
        ThreadsBounds(lk, lk[l[0]], l[1..]);
        assert forall k :: 1 <= k < |l| ==> l[k] == l[1..][k - 1];
      }
    }

    /** Pointing a new surface at the old head and making it the head threads the longer list. */
    static lemma ThreadsPushFront(lk: seq<Link>, start: Link, l: seq<nat>, s: nat)
      requires Threads(lk, start, l) && s < |lk| && s !in l
      ensures Threads(lk[s := start], Surf(s), [s] + l)
    {
      ThreadsUntouched(lk, start, l, s, start);
      assert ([s] + l)[1..] == l;
    }

    /**
      Ending a new surface's links and attaching it after the last surface
      of a non-empty list threads the longer list.
    */
    static lemma {:induction false} ThreadsPushBack(lk: seq<Link>, start: Link, l: seq<nat>, s: nat)
      requires Threads(lk, start, l) && Distinct(l) && l != [] && s < |lk| && s !in l && l[|l| - 1] < |lk|
      ensures Threads(lk[s := Nil][l[|l| - 1] := Surf(s)], start, l + [s])
      decreases |l|
    {
      var last := l[|l| - 1];
      var lk' := lk[s := Nil][last := Surf(s)];
      assert (l + [s])[1..] == l[1..] + [s];
      if |l| == 1 {
        assert l[1..] == [] && ([s])[1..] == [];
      } else {
        var x := l[0];
        assert x != last && x != s;
        assert l[1..][|l| - 2] == last;
        assert forall y :: y in l[1..] ==> y in l;
        ThreadsPushBack(lk, lk[x], l[1..], s);
      }
    }

    /** Linking an unchained surface in front of list `m` keeps every list threaded and apart. */
    lemma PushFrontKeepsValid(m: nat, s: nat)
      requires Valid() && m < chains.Length && s < link.Length && Unchained(s)
      ensures Distinct([s] + lists[m])
      ensures forall n :: 0 <= n < chains.Length && n != m ==> Disjoint([s] + lists[m], lists[n])
    {
      var l := [s] + lists[m];
      forall i, j | 0 <= i < j < |l|
        ensures l[i] != l[j]
      {
        if i > 0 {
          assert l[i] == lists[m][i - 1] && l[j] == lists[m][j - 1];
        } else {
          assert l[j] in lists[m];
        }
      }
      forall n | 0 <= n < chains.Length && n != m
        ensures Disjoint(l, lists[n])
      {
        if m < n {
          assert Disjoint(lists[m], lists[n]);
        } else {
          assert Disjoint(lists[n], lists[m]);
        }
      }
    }

    /** Linking an unchained surface after list `m` keeps every list threaded and apart. */
    lemma PushBackKeepsValid(m: nat, s: nat)
      requires Valid() && m < chains.Length && s < link.Length && Unchained(s)
      ensures Distinct(lists[m] + [s])
      ensures forall n :: 0 <= n < chains.Length && n != m ==> Disjoint(lists[m] + [s], lists[n])
    {
      var l := lists[m] + [s];
      forall i, j | 0 <= i < j < |l|
        ensures l[i] != l[j]
      {
        if j < |lists[m]| {
          assert l[i] == lists[m][i] && l[j] == lists[m][j];
        } else {
          assert l[i] in lists[m];
        }
      }
      forall n | 0 <= n < chains.Length && n != m
        ensures Disjoint(l, lists[n])
      {
        if m < n {
          assert Disjoint(lists[m], lists[n]);
        } else {
          assert Disjoint(lists[n], lists[m]);
        }
      }
    }

    /** The segment `r` points to is allocated: a header of `cs` or a segment still in zone `z`. */
    static predicate LiveIn(z: map<nat, Header>, cs: seq<Header>, r: SegRef)
    {
      match r
      case NoSeg => false
      case Slot(j) => j < |cs|
      case Heap(id) => id in z
    }

    /** The segment `r` points to, among the headers `cs` and the zone `z`. */
    static function GetIn(z: map<nat, Header>, cs: seq<Header>, r: SegRef): Header
      requires LiveIn(z, cs, r)
    {
      match r
      case Slot(j) => cs[j]
      case Heap(id) => z[id]
    }

    predicate Live(r: SegRef)
      reads this, chains
    {
      LiveIn(zone, chains[..], r)
    }

    function Get(r: SegRef): Header
      reads this, chains
      requires Live(r)
    {
      GetIn(zone, chains[..], r)
    }

    /** Where ForEach_MaterialChain starts: the overflow tail when it is set, else the head itself. */
    function Start(head: SegRef): SegRef
      reads this, chains
      requires Live(head)
    {
      if Get(head).overflowTail != NoSeg then Get(head).overflowTail else head
    }

    /**
      `path` is the walk from `head`: it begins where ForEach_MaterialChain
      starts, each segment's overflow link is the next one and the last
      one's is NULL, no segment comes twice, and every segment other than
      the head came from the zone.
    */
    ghost predicate Walk(head: SegRef, path: seq<SegRef>)
      reads this, chains
      requires Live(head)
    {
      |path| >= 1 && path[0] == Start(head) && Distinct(path)
      && (forall k :: 0 <= k < |path| ==> Live(path[k]) && (path[k] != head ==> path[k].Heap?))
      && (forall k :: 0 <= k < |path| ==> Get(path[k]).overflow == (if k + 1 < |path| then path[k + 1] else NoSeg))
    }

    /** The zone segments among the first `n` of `path`, other than the head. */
    static ghost function Freed(head: SegRef, path: seq<SegRef>, n: nat): set<nat>
      requires n <= |path|
    {
      if n == 0 then {}
      else Freed(head, path, n - 1) + Gone(head, path[n - 1])
    }


    /**
      ForEach_MaterialChain: visits the segments of the walk in order,
      yielding each header as it was, and frees every visited segment
      except the head it was given.
    */
    method ForEach(head: SegRef, ghost path: seq<SegRef>) returns (visited: seq<Header>)
      requires Live(head) && Walk(head, path)
      modifies this`zone
      ensures |visited| == |path|
      ensures forall k :: 0 <= k < |path| ==> visited[k] == old(Get(path[k]))
      ensures zone == old(zone) - Freed(head, path, |path|)
    {
      ghost var segs := Segments(path);
      assert Linked(head, path, segs);
      visited := Drain(head, Start(head), path, segs);
    }

    /**
      `segs` are the headers along `path`: each one's overflow link is the
      next segment of the path, the last one's is NULL, and every segment
      but the head is a zone segment.
    */
    static ghost predicate Linked(head: SegRef, path: seq<SegRef>, segs: seq<Header>)
    {
      |segs| == |path| && |path| >= 1 && Distinct(path)
      && (forall k :: 0 <= k < |path| ==> path[k] != head ==> path[k].Heap?)
      && (forall k :: 0 <= k < |path| ==> segs[k].overflow == (if k + 1 < |path| then path[k + 1] else NoSeg))
    }

    /** The loop of ForEach_MaterialChain, from `start`, the first segment of the walk. */
    method Drain(head: SegRef, start: SegRef, ghost path: seq<SegRef>, ghost segs: seq<Header>) returns (visited: seq<Header>)
      requires Linked(head, path, segs) && start == path[0]
      requires Ahead(zone, chains[..], path, segs, 0)
      modifies this`zone
      ensures visited == segs
      ensures zone == old(zone) - Freed(head, path, |path|)
    {
      ghost var cs := chains[..];
      var cur := start;
      visited := [];
      ghost var i := 0;
      while cur != NoSeg
        invariant cur == (if i < |path| then path[i] else NoSeg)
        invariant Progress(old(zone), zone, cs, head, path, segs, visited, i)
        decreases |path| - i
      {
        ghost var z := zone;
        var seg := Visit(head, cur);
        ProgressStep(old(zone), z, cs, head, path, segs, visited, i);
        visited := visited + [seg];
        cur := seg.overflow;
        i := i + 1;
      }
    }

    /** The zone segment ForEach_MaterialChain frees at `cur`: none for the head it was given. */
    static function Gone(head: SegRef, cur: SegRef): set<nat>
    {
      if cur != head && cur.Heap? then {cur.id} else {}
    }

    /**
      After `i` steps of a walk that started with zone `z0`: `visited`
      holds the first `i` headers, the zone lost what those steps freed,
      and the rest of the walk is still allocated.
    */
    static ghost predicate Progress(z0: map<nat, Header>, z: map<nat, Header>, cs: seq<Header>, head: SegRef,
                                    path: seq<SegRef>, segs: seq<Header>, visited: seq<Header>, i: nat)
      requires |segs| == |path|
    {
      i <= |path| && |visited| == i
      && visited == segs[..i]
      && z == z0 - Freed(head, path, i)
      && Ahead(z, cs, path, segs, i)
    }

    /** One step keeps Progress: the header at `i` is the one visited, and only its zone segment is freed. */
    static lemma ProgressStep(z0: map<nat, Header>, z: map<nat, Header>, cs: seq<Header>, head: SegRef,
                              path: seq<SegRef>, segs: seq<Header>, visited: seq<Header>, i: nat)
      requires |segs| == |path| && Distinct(path) && i < |path|
      requires Progress(z0, z, cs, head, path, segs, visited, i)
      requires path[i] != head ==> path[i].Heap?
      ensures LiveIn(z, cs, path[i]) && GetIn(z, cs, path[i]) == segs[i]
      ensures Progress(z0, z - Gone(head, path[i]), cs, head, path, segs, visited + [segs[i]], i + 1)
    {
      var gone := Gone(head, path[i]);
      AheadAfterFree(z, cs, path, segs, i, gone);
      assert (z0 - Freed(head, path, i)) - gone == z0 - (Freed(head, path, i) + gone);
    }

    /** The segments of `path` from `i` on are still allocated and hold the headers `segs`. */
    static ghost predicate Ahead(z: map<nat, Header>, cs: seq<Header>, path: seq<SegRef>, segs: seq<Header>, i: nat)
      requires |segs| == |path|
    {
      forall k :: i <= k < |path| ==> LiveIn(z, cs, path[k]) && GetIn(z, cs, path[k]) == segs[k]
    }

    /** Freeing the segment at position `i` of a walk that visits no segment twice leaves the rest of it allocated. */
    static lemma AheadAfterFree(z: map<nat, Header>, cs: seq<Header>, path: seq<SegRef>, segs: seq<Header>, i: nat, gone: set<nat>)
      requires i < |path| == |segs| && Distinct(path) && Ahead(z, cs, path, segs, i)
      requires gone == {} || (path[i].Heap? && gone == {path[i].id})
      ensures Ahead(z - gone, cs, path, segs, i + 1)
    {
      forall k | i + 1 <= k < |path|
        ensures LiveIn(z - gone, cs, path[k]) && GetIn(z - gone, cs, path[k]) == segs[k]
      {
        assert path[i] != path[k];
      }
    }

    /** One step of ForEach_MaterialChain: reads the segment at `cur` and frees it unless it is the head. */
    method Visit(head: SegRef, cur: SegRef) returns (seg: Header)
      requires Live(cur) && (cur != head ==> cur.Heap?)
      modifies this`zone
      ensures seg == old(Get(cur))
      ensures zone == old(zone) - Gone(head, cur)
    {
      seg := Get(cur);
      if cur != head {
        // Z_Free
        zone := zone - {cur.id};
      }
    }

    /** The headers of the segments `path` points to. */
    ghost function Segments(path: seq<SegRef>): (segs: seq<Header>)
      reads this, chains
      requires forall k :: 0 <= k < |path| ==> Live(path[k])
      ensures |segs| == |path| && forall k :: 0 <= k < |path| ==> segs[k] == Get(path[k])
    {
      if path == [] then [] else [Get(path[0])] + Segments(path[1..])
    }
  }
}
