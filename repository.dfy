/** The repository graph and its resolution engine.

    A `Repo` is one node of the graph: an optional mapper, an optional
    storage access handle, ordered parents (read-side ancestors), ordered
    peers (write-side siblings) and a parent join mode. Its topology is
    fixed once it is constructed, so a node is a value. The graph must be
    finite and acyclic, which the inductive datatype guarantees.

    The two traversal primitives are
    - `SelfAndPeers` (`Repository.doSelfAndPeers`): apply an operation to
      the node, then to each peer in declared order, flattening the
      non-None results; and
    - `SearchParents` (`Repository.doParents`): a depth-first,
      priority-ordered search of the parents under the node's join mode.
    Every per-node operation is a function parameter `Repo -> Option<R>`:
    the arguments Python forwards through `*args, **kwargs` are the same
    for every node, so they are closed over by that function.
 */
module Repository {
  import opened Wrappers
  import opened Location
  import PosixPath

  /** `parentJoin`: `'left'` stops at the first result, `'outer'` keeps one
      result per top-level parent. */
  datatype Join = Left | Outer

  /** Opaque handles for the external mapper and storage access objects. */
  datatype Mapper = Mapper(name: string)
  datatype Access = Access(name: string)

  datatype Repo = Repo(
    id: Option<string>,
    mapper: Option<Mapper>,
    access: Option<Access>,
    parents: seq<Repo>,
    peers: seq<Repo>,
    parentJoin: Join)

  // ---------------------------------------------------------------------
  // Construction

  /** `Repository._supportedParentJoin`. */
  const SupportedParentJoin: seq<string> := ["left", "outer"]

  /** `Repository.__init__`: fails unless `parentJoin` is a supported
      value (a Python `None` is `None` here); missing parents and peers
      become empty sequences. */
  function NewRepository(mapper: Option<Mapper>, access: Option<Access>, parents: Option<seq<Repo>>,
                         peers: Option<seq<Repo>>, id: Option<string>, parentJoin: Option<string>): (r: Result<Repo>)
    ensures r.Ok? <==> parentJoin == Some("left") || parentJoin == Some("outer")
    ensures r.Err? ==> r.error.RuntimeError?
    ensures r.Ok? ==> r.value.parentJoin == (if parentJoin == Some("left") then Left else Outer)
    ensures r.Ok? ==> r.value.parents == (if parents.None? then [] else parents.value)
    ensures r.Ok? ==> r.value.peers == (if peers.None? then [] else peers.value)
    ensures r.Ok? ==> r.value.mapper == mapper && r.value.access == access && r.value.id == id
  {
    if parentJoin.None? || parentJoin.value !in SupportedParentJoin then
      Err(RuntimeError("parentJoin not supported"))
    else
      Ok(Repo(id, mapper, access,
              if parents.None? then [] else parents.value,
              if peers.None? then [] else peers.value,
              if parentJoin.value == "left" then Left else Outer))
  }

  /** `Repository.__init__` as written: the message for an unsupported
      `parentJoin` is formatted from `self._parentJoin`, which is only
      assigned afterwards, so the lookup of that attribute raises before
      the RuntimeError can; a supported value builds the same node. */
  function NewRepositoryAsWritten(mapper: Option<Mapper>, access: Option<Access>, parents: Option<seq<Repo>>,
                                  peers: Option<seq<Repo>>, id: Option<string>, parentJoin: Option<string>): (r: Result<Repo>)
    ensures r.Ok? <==> NewRepository(mapper, access, parents, peers, id, parentJoin).Ok?
    ensures r.Ok? ==> r == NewRepository(mapper, access, parents, peers, id, parentJoin)
    ensures r.Err? ==> r.error == AttributeError("_parentJoin")
  {
    if parentJoin.None? || parentJoin.value !in SupportedParentJoin then Err(AttributeError("_parentJoin"))
    else NewRepository(mapper, access, parents, peers, id, parentJoin)
  }

  /** An unsupported join mode such as `'inner'`: as written the caller
      sees AttributeError, where the RuntimeError naming the supported
      modes is intended. */
  lemma UnsupportedJoinAsWritten()
    ensures NewRepositoryAsWritten(None, None, None, None, None, Some("inner")) == Err(AttributeError("_parentJoin"))
    ensures NewRepository(None, None, None, None, None, Some("inner")).Err?
    ensures NewRepository(None, None, None, None, None, Some("inner")).error.RuntimeError?
  {
    assert "inner" !in SupportedParentJoin by {
      assert SupportedParentJoin[0] != "inner" && SupportedParentJoin[1] != "inner";
    }
  }

  // ---------------------------------------------------------------------
  // Self and peers

  /** What one call of the operation contributes: a sequence result is
      flattened into the accumulator (`list.extend`), anything else is
      appended as one element. */
  datatype Yield<R> = Single(item: R) | Many(items: seq<R>)

  function Contribution<R>(y: Option<Yield<R>>): seq<R> {
    match y
    case None => []
    case Some(Single(x)) => [x]
    case Some(Many(xs)) => xs
  }

  /** The nodes `doSelfAndPeers` applies the operation to, in order: the
      node itself, then its peers (never the peers' own peers). */
  function Visits(r: Repo): (vs: seq<Repo>)
    ensures |vs| == 1 + |r.peers| && vs[0] == r && vs[1..] == r.peers
  {
    [r] + r.peers
  }

  /** The accumulated contributions of the operation over `ns`, in order. */
  function Collect<R>(ns: seq<Repo>, f: Repo -> Option<Yield<R>>): seq<R> {
    if ns == [] then [] else Contribution(f(ns[0])) + Collect(ns[1..], f)
  }

  /** What `doSelfAndPeers(func)` returns: the flattened non-None results
      over the visits, or None (not an empty list) when there are none. */
  function SelfAndPeers<R>(r: Repo, f: Repo -> Option<Yield<R>>): (res: Option<seq<R>>)
    ensures res.Some? ==> res.value != []
  {
    var c := Collect(Visits(r), f);
    if c == [] then None else Some(c)
  }

  lemma {:induction false} CollectAppend<R>(a: seq<Repo>, b: seq<Repo>, f: Repo -> Option<Yield<R>>)
    ensures Collect(a + b, f) == Collect(a, f) + Collect(b, f)
  {
    if a != [] {
      assert (a + b)[1..] == a[1..] + b;
      CollectAppend(a[1..], b, f);
    } else {
      assert a + b == b;
    }
  }

  /** `Repository.doSelfAndPeers`: the operation on self, then on each peer,
      extending or appending each non-None result. */
  method DoSelfAndPeers<R>(r: Repo, f: Repo -> Option<Yield<R>>) returns (res: Option<seq<R>>)
    ensures res == SelfAndPeers(r, f)
  {
    var ret: seq<R> := [];
    match f(r) {
      case None =>
      case Some(Single(x)) => ret := ret + [x];
      case Some(Many(xs)) => ret := ret + xs;
    }
    assert Visits(r)[..1] == [r];
    assert ret == Collect(Visits(r)[..1], f);
    for i := 0 to |r.peers|
      invariant ret == Collect(Visits(r)[..i + 1], f)
    {
      var peer := r.peers[i];
      match f(peer) {
        case None =>
        case Some(Single(x)) => ret := ret + [x];
        case Some(Many(xs)) => ret := ret + xs;
      }
      assert Visits(r)[..i + 2] == Visits(r)[..i + 1] + [peer];
      CollectAppend(Visits(r)[..i + 1], [peer], f);
    }
    assert Visits(r)[..|r.peers| + 1] == Visits(r);
    if |ret| == 0 {
      res := None;
    } else {
      res := Some(ret);
    }
  }

  /** Every collected element comes from the call on one visited node, and
      every element such a call yields is collected. */
  lemma {:induction false} CollectMembers<R>(ns: seq<Repo>, f: Repo -> Option<Yield<R>>, x: R)
    ensures x in Collect(ns, f) <==> exists k :: 0 <= k < |ns| && x in Contribution(f(ns[k]))
  {
    if ns != [] {
      CollectMembers(ns[1..], f, x);
      if x in Contribution(f(ns[0])) {
        assert x in Contribution(f(ns[0]));
      }
      if exists k :: 1 <= k < |ns| && x in Contribution(f(ns[k])) {
        var k :| 1 <= k < |ns| && x in Contribution(f(ns[k]));
        assert ns[1..][k - 1] == ns[k];
      }
    }
  }

  /** `doSelfAndPeers` returns None exactly when every call returned None
      or an empty sequence. */
  lemma SelfAndPeersNoneIff<R>(r: Repo, f: Repo -> Option<Yield<R>>)
    ensures SelfAndPeers(r, f).None? <==> forall k :: 0 <= k <= |r.peers| ==> Contribution(f(Visits(r)[k])) == []
  {
    var vs := Visits(r);
    if Collect(vs, f) != [] {
      var x := Collect(vs, f)[0];
      CollectMembers(vs, f, x);
    } else {
      forall k | 0 <= k <= |r.peers| ensures Contribution(f(vs[k])) == [] {
        if Contribution(f(vs[k])) != [] {
          CollectMembers(vs, f, Contribution(f(vs[k]))[0]);
        }
      }
    }
  }

  /** A sequence that self returns is passed on unchanged when every peer
      returns None. */
  lemma {:induction false} SelfAndNonePeers<R>(r: Repo, f: Repo -> Option<Yield<R>>)
    requires forall k :: 0 <= k < |r.peers| ==> f(r.peers[k]).None?
    ensures SelfAndPeers(r, f) == if Contribution(f(r)) == [] then None else Some(Contribution(f(r)))
  {
    NoneContributesNothing(r.peers, f);
    var vs := Visits(r);
    assert vs[1..] == r.peers;
    assert Collect(vs, f) == Contribution(f(vs[0])) + Collect(vs[1..], f);
    assert Contribution(f(r)) + [] == Contribution(f(r));
  }

  lemma {:induction false} NoneContributesNothing<R>(ns: seq<Repo>, f: Repo -> Option<Yield<R>>)
    requires forall k :: 0 <= k < |ns| ==> f(ns[k]).None?
    ensures Collect(ns, f) == []
  {
    if ns != [] {
      assert f(ns[0]).None?;
      NoneContributesNothing(ns[1..], f);
    }
  }

  /** `doSelfAndPeers` consults the operation on the visits only: two
      operations that agree there give the same result, whatever they do
      on the peers' own peers. */
  lemma {:induction false} CollectOnlyVisits<R>(ns: seq<Repo>, f: Repo -> Option<Yield<R>>, g: Repo -> Option<Yield<R>>)
    requires forall k :: 0 <= k < |ns| ==> f(ns[k]) == g(ns[k])
    ensures Collect(ns, f) == Collect(ns, g)
  {
    if ns != [] {
      assert f(ns[0]) == g(ns[0]);
      CollectOnlyVisits(ns[1..], f, g);
    }
  }

  lemma SelfAndPeersOnlyVisits<R>(r: Repo, f: Repo -> Option<Yield<R>>, g: Repo -> Option<Yield<R>>)
    requires forall k :: 0 <= k <= |r.peers| ==> f(Visits(r)[k]) == g(Visits(r)[k])
    ensures SelfAndPeers(r, f) == SelfAndPeers(r, g)
  {
    CollectOnlyVisits(Visits(r), f, g);
  }

  /** A call that returns at most one element: None, or the value as one
      appended element. */
  function AsSingle<R>(o: Option<R>): Option<Yield<R>> {
    if o.None? then None else Some(Single(o.value))
  }

  /** The positions `k >= from` of `ns` whose node yields a value under
      `g`, in ascending order. */
  function Yielding<R>(ns: seq<Repo>, g: Repo -> Option<R>, from: nat): (ks: seq<nat>)
    ensures forall j :: 0 <= j < |ks| ==> from <= ks[j] < |ns| && g(ns[ks[j]]).Some?
    ensures forall j, j' :: 0 <= j < j' < |ks| ==> ks[j] < ks[j']
    ensures forall k :: from <= k < |ns| && g(ns[k]).Some? ==> k in ks
    decreases |ns| - from
  {
    if from >= |ns| then []
    else (if g(ns[from]).Some? then [from] else []) + Yielding(ns, g, from + 1)
  }

  /** When every call yields at most one element, the collected list has
      one entry per yielding node, and its `j`-th entry is the value of the
      `j`-th yielding node in visit order. */
  lemma {:induction false} CollectSingles<R>(ns: seq<Repo>, g: Repo -> Option<R>, f: Repo -> Option<Yield<R>>, from: nat)
    requires from <= |ns|
    requires forall n :: f(n) == AsSingle(g(n))
    ensures var xs := Collect(ns[from..], f);
            var ks := Yielding(ns, g, from);
            && |xs| == |ks|
            && forall j :: 0 <= j < |xs| ==> xs[j] == g(ns[ks[j]]).value
    decreases |ns| - from
  {
    if from < |ns| {
      CollectSingles(ns, g, f, from + 1);
      assert ns[from..][0] == ns[from] && ns[from..][1..] == ns[from + 1..];
      assert f(ns[from]) == AsSingle(g(ns[from]));
    } else {
      assert ns[from..] == [];
    }
  }

  // ---------------------------------------------------------------------
  // Parent search

  /** A parent-search result: a single operation result, or a list (what
      an `'outer'` search returns, nested when a parent's own search is
      itself `'outer'`). */
  datatype Found<R> = Item(value: R) | Group(entries: seq<Found<R>>)

  /** What `doParents(func)` returns on `r`. */
  function SearchParents<R>(r: Repo, f: Repo -> Option<R>): (res: Option<Found<R>>)
    ensures r.parents == [] ==> res.None?
    ensures r.parentJoin == Outer && res.Some? ==> res.value.Group? && res.value.entries != []
    decreases r, |r.parents| + 1
  {
    Scan(r, f, 0, [])
  }

  /** What one parent `p` yields: `func(p)`, or else `p.doParents(func)`
      (searched under `p`'s own join mode). */
  function Hit<R>(p: Repo, f: Repo -> Option<R>): Option<Found<R>>
    decreases p, |p.parents| + 2
  {
    match f(p)
    case Some(x) => Some(Item(x))
    case None => SearchParents(p, f)
  }

  /** The loop of `doParents` from parent `i` on, with `acc` the results
      gathered so far (always empty under `'left'`). */
  function Scan<R>(r: Repo, f: Repo -> Option<R>, i: nat, acc: seq<Found<R>>): (res: Option<Found<R>>)
    requires i <= |r.parents|
    ensures i == |r.parents| && acc == [] ==> res.None?
    ensures r.parentJoin == Outer && res.Some? ==> res.value.Group? && res.value.entries != []
    decreases r, |r.parents| - i
  {
    if i == |r.parents| then
      if |acc| == 0 then None else Some(Group(acc))
    else
      var res := Hit(r.parents[i], f);
      if res.Some? && r.parentJoin == Left then res
      else Scan(r, f, i + 1, if res.Some? then acc + [res.value] else acc)
  }

  /** The nodes `doParents(func)` applies `func` to, in call order. */
  function Trace<R>(r: Repo, f: Repo -> Option<R>): seq<Repo>
    decreases r, |r.parents| + 1
  {
    TraceFrom(r, f, 0)
  }

  function TraceFrom<R>(r: Repo, f: Repo -> Option<R>, i: nat): seq<Repo>
    requires i <= |r.parents|
    decreases r, |r.parents| - i
  {
    if i == |r.parents| then []
    else
      var p := r.parents[i];
      Visit(p, f) + (if Hit(p, f).Some? && r.parentJoin == Left then [] else TraceFrom(r, f, i + 1))
  }

  /** The nodes one parent `p` contributes to the trace: `p` itself, then,
      when `func(p)` is None, the trace of `p`'s own search. */
  function Visit<R>(p: Repo, f: Repo -> Option<R>): seq<Repo>
    decreases p, |p.parents| + 2
  {
    [p] + (if f(p).None? then Trace(p, f) else [])
  }

  /** `Repository.doParents`: for each parent in order, `func(parent)`,
      falling back to `parent.doParents(func)`; under `'left'` the first
      non-None result is returned at once, under `'outer'` each is appended.
      `visited` records the nodes `func` was applied to. */
  method DoParents<R>(r: Repo, f: Repo -> Option<R>) returns (res: Option<Found<R>>, ghost visited: seq<Repo>)
    ensures res == SearchParents(r, f)
    ensures visited == Trace(r, f)
    decreases r
  {
    var ret: seq<Found<R>> := [];
    visited := [];
    var i := 0;
    while i < |r.parents|
      invariant 0 <= i <= |r.parents|
      invariant SearchParents(r, f) == Scan(r, f, i, ret)
      invariant Trace(r, f) == visited + TraceFrom(r, f, i)
    {
      var parent := r.parents[i];
      var x := f(parent);
      var hit: Option<Found<R>>;
      ghost var seen := [parent];
      if x.None? {
        ghost var sub;
        hit, sub := DoParents(parent, f);
        seen := seen + sub;
      } else {
        hit := Some(Item(x.value));
      }
      assert hit == Hit(parent, f);
      assert seen == Visit(parent, f);
      DoParentsStep(r, f, i, ret, visited);
      visited := visited + seen;
      if hit.Some? {
        if r.parentJoin == Left {
          return hit, visited;
        }
        ret := ret + [hit.value];
      }
      i := i + 1;
    }
    if |ret| == 0 {
      res := None;
    } else {
      res := Some(Group(ret));
    }
  }

  /** One parent of the `doParents` loop: under `'left'` a result ends
      the search; otherwise the scan and the trace move on by one parent. */
  lemma DoParentsStep<R>(r: Repo, f: Repo -> Option<R>, i: nat, ret: seq<Found<R>>, visited: seq<Repo>)
    requires i < |r.parents|
    requires SearchParents(r, f) == Scan(r, f, i, ret)
    requires Trace(r, f) == visited + TraceFrom(r, f, i)
    ensures var p := r.parents[i];
            Hit(p, f).Some? && r.parentJoin == Left ==>
              SearchParents(r, f) == Hit(p, f) && Trace(r, f) == visited + Visit(p, f)
    ensures var p := r.parents[i];
            !(Hit(p, f).Some? && r.parentJoin == Left) ==>
              && SearchParents(r, f) == Scan(r, f, i + 1, if Hit(p, f).Some? then ret + [Hit(p, f).value] else ret)
              && Trace(r, f) == (visited + Visit(p, f)) + TraceFrom(r, f, i + 1)
  {
    var p := r.parents[i];
    if Hit(p, f).Some? && r.parentJoin == Left {
      LeftStopTrace(r, f, i);
    } else {
      SeqAssoc(visited, Visit(p, f), TraceFrom(r, f, i + 1));
    }
  }

  /** The search consults `func` on the traced nodes only: two operations
      that agree there give the same result and the same trace. */
  lemma {:induction false} SearchOnlyTrace<R>(r: Repo, f: Repo -> Option<R>, g: Repo -> Option<R>)
    requires forall n :: n in Trace(r, f) ==> f(n) == g(n)
    ensures SearchParents(r, f) == SearchParents(r, g)
    ensures Trace(r, f) == Trace(r, g)
    decreases r, |r.parents| + 1
  {
    ScanOnlyTrace(r, f, g, 0, []);
  }

  lemma {:induction false} ScanOnlyTrace<R>(r: Repo, f: Repo -> Option<R>, g: Repo -> Option<R>, i: nat, acc: seq<Found<R>>)
    requires i <= |r.parents|
    requires forall n :: n in TraceFrom(r, f, i) ==> f(n) == g(n)
    ensures Scan(r, f, i, acc) == Scan(r, g, i, acc)
    ensures TraceFrom(r, f, i) == TraceFrom(r, g, i)
    decreases r, |r.parents| - i
  {
    if i < |r.parents| {
      var p := r.parents[i];
      var t := TraceFrom(r, f, i);
      var v := Visit(p, f);
      assert t == v + (if Hit(p, f).Some? && r.parentJoin == Left then [] else TraceFrom(r, f, i + 1));
      assert v[0] == p && p in t;
      assert f(p) == g(p);
      if f(p).None? {
        var tp := Trace(p, f);
        assert v == [p] + tp;
        forall n | n in tp ensures f(n) == g(n) {
          assert n in v;
        }
        SearchOnlyTrace(p, f, g);
      }
      assert Hit(p, f) == Hit(p, g);
      assert Visit(p, f) == Visit(p, g);
      if !(Hit(p, f).Some? && r.parentJoin == Left) {
        var rest := TraceFrom(r, f, i + 1);
        forall n | n in rest ensures f(n) == g(n) {
          assert n in t;
        }
        var acc' := if Hit(p, f).Some? then acc + [Hit(p, f).value] else acc;
        ScanOnlyTrace(r, f, g, i + 1, acc');
      }
    }
  }

  /** `r` and every node above it along its parents use `'left'` join. */
  predicate AllLeft(r: Repo)
    decreases r
  {
    r.parentJoin == Left && forall i :: 0 <= i < |r.parents| ==> AllLeft(r.parents[i])
  }

  /** The depth-first, priority order of the ancestors: first parent, its
      ancestors, then the second parent, and so on. */
  function Ancestors(r: Repo): seq<Repo>
    decreases r, |r.parents| + 1
  {
    AncestorsFrom(r, 0)
  }

  function AncestorsFrom(r: Repo, i: nat): seq<Repo>
    requires i <= |r.parents|
    decreases r, |r.parents| - i
  {
    if i == |r.parents| then [] else [r.parents[i]] + Ancestors(r.parents[i]) + AncestorsFrom(r, i + 1)
  }

  /** The first result `func` gives along `ns`. */
  function FirstHit<R>(ns: seq<Repo>, f: Repo -> Option<R>): Option<R> {
    if ns == [] then None else if f(ns[0]).Some? then f(ns[0]) else FirstHit(ns[1..], f)
  }

  /** The prefix of `ns` up to and including the first node where `func`
      gives a result (all of `ns` when there is none). */
  function UpToHit<R>(ns: seq<Repo>, f: Repo -> Option<R>): seq<Repo> {
    if ns == [] then [] else if f(ns[0]).Some? then [ns[0]] else [ns[0]] + UpToHit(ns[1..], f)
  }

  lemma {:induction false} FirstHitAppend<R>(a: seq<Repo>, b: seq<Repo>, f: Repo -> Option<R>)
    ensures FirstHit(a + b, f) == if FirstHit(a, f).Some? then FirstHit(a, f) else FirstHit(b, f)
    ensures UpToHit(a + b, f) == if FirstHit(a, f).Some? then UpToHit(a, f) else a + UpToHit(b, f)
  {
    if a != [] {
      assert (a + b)[1..] == a[1..] + b;
      FirstHitAppend(a[1..], b, f);
    } else {
      assert a + b == b;
    }
  }

  lemma {:induction false} NoHitUpToAll<R>(ns: seq<Repo>, f: Repo -> Option<R>)
    requires FirstHit(ns, f).None?
    ensures UpToHit(ns, f) == ns
  {
    if ns != [] {
      NoHitUpToAll(ns[1..], f);
    }
  }

  function Lift<R>(o: Option<R>): Option<Found<R>> {
    if o.None? then None else Some(Item(o.value))
  }

  /** Under `'left'` join throughout, `doParents` returns exactly the first
      result in depth-first priority order, and applies `func` to exactly
      the ancestors up to that one: a nearer parent masks an older
      ancestor, and nothing after the hit is visited. */
  lemma {:induction false} LeftJoinFirstHit<R>(r: Repo, f: Repo -> Option<R>)
    requires AllLeft(r)
    ensures SearchParents(r, f) == Lift(FirstHit(Ancestors(r), f))
    ensures Trace(r, f) == UpToHit(Ancestors(r), f)
    decreases r, |r.parents| + 1
  {
    LeftScanFirstHit(r, f, 0);
  }

  lemma {:induction false} LeftScanFirstHit<R>(r: Repo, f: Repo -> Option<R>, i: nat)
    requires AllLeft(r) && i <= |r.parents|
    ensures Scan(r, f, i, []) == Lift(FirstHit(AncestorsFrom(r, i), f))
    ensures TraceFrom(r, f, i) == UpToHit(AncestorsFrom(r, i), f)
    decreases r, |r.parents| - i
  {
    if i < |r.parents| {
      var p := r.parents[i];
      AncestorsFromParts(r, i);
      if f(p).None? {
        assert AllLeft(p);
        LeftJoinFirstHit(p, f);
        FirstHitAppend(Ancestors(p), AncestorsFrom(r, i + 1), f);
        if FirstHit(Ancestors(p), f).None? {
          LeftScanFirstHit(r, f, i + 1);
          NoHitUpToAll(Ancestors(p), f);
          LeftScanMiss(r, f, i);
        } else {
          LeftScanDeepHit(r, f, i);
        }
      }
    }
  }

  lemma AncestorsFromParts(r: Repo, i: nat)
    requires i < |r.parents|
    ensures var all := AncestorsFrom(r, i);
            && all == [r.parents[i]] + (Ancestors(r.parents[i]) + AncestorsFrom(r, i + 1))
            && all[0] == r.parents[i] && all[1..] == Ancestors(r.parents[i]) + AncestorsFrom(r, i + 1)
  {
  }

  /** A parent whose own search finds a result ends a `'left'` scan. */
  lemma LeftScanDeepHit<R>(r: Repo, f: Repo -> Option<R>, i: nat)
    requires r.parentJoin == Left && i < |r.parents|
    requires var p := r.parents[i];
             && f(p).None? && FirstHit(Ancestors(p), f).Some?
             && SearchParents(p, f) == Lift(FirstHit(Ancestors(p), f))
             && Trace(p, f) == UpToHit(Ancestors(p), f)
    requires var all := AncestorsFrom(r, i);
             var anc := Ancestors(r.parents[i]);
             && all[0] == r.parents[i] && all[1..] == anc + AncestorsFrom(r, i + 1)
             && FirstHit(anc + AncestorsFrom(r, i + 1), f) == FirstHit(anc, f)
             && UpToHit(anc + AncestorsFrom(r, i + 1), f) == UpToHit(anc, f)
    ensures Scan(r, f, i, []) == Lift(FirstHit(AncestorsFrom(r, i), f))
    ensures TraceFrom(r, f, i) == UpToHit(AncestorsFrom(r, i), f)
  {
    var p := r.parents[i];
    assert TraceFrom(r, f, i) == [p] + Trace(p, f) + [];
  }

  /** A parent where nothing is found hands the `'left'` scan on to the
      next parent. */
  lemma LeftScanMiss<R>(r: Repo, f: Repo -> Option<R>, i: nat)
    requires r.parentJoin == Left && i < |r.parents|
    requires var p := r.parents[i];
             && f(p).None? && FirstHit(Ancestors(p), f).None?
             && SearchParents(p, f) == None
             && Trace(p, f) == Ancestors(p)
    requires Scan(r, f, i + 1, []) == Lift(FirstHit(AncestorsFrom(r, i + 1), f))
    requires TraceFrom(r, f, i + 1) == UpToHit(AncestorsFrom(r, i + 1), f)
    requires var all := AncestorsFrom(r, i);
             var anc := Ancestors(r.parents[i]);
             && all[0] == r.parents[i] && all[1..] == anc + AncestorsFrom(r, i + 1)
             && FirstHit(anc + AncestorsFrom(r, i + 1), f) == FirstHit(AncestorsFrom(r, i + 1), f)
             && UpToHit(anc + AncestorsFrom(r, i + 1), f) == anc + UpToHit(AncestorsFrom(r, i + 1), f)
    ensures Scan(r, f, i, []) == Lift(FirstHit(AncestorsFrom(r, i), f))
    ensures TraceFrom(r, f, i) == UpToHit(AncestorsFrom(r, i), f)
  {
    var p := r.parents[i];
    assert Hit(p, f).None?;
    assert TraceFrom(r, f, i) == [p] + Trace(p, f) + TraceFrom(r, f, i + 1);
    SeqAssoc([p], Ancestors(p), UpToHit(AncestorsFrom(r, i + 1), f));
  }

  /** The top-level results of an `'outer'` search: one entry per parent
      that yields something, in parent order. */
  function Hits<R>(ps: seq<Repo>, f: Repo -> Option<R>): seq<Found<R>> {
    if ps == [] then []
    else (if Hit(ps[0], f).Some? then [Hit(ps[0], f).value] else []) + Hits(ps[1..], f)
  }

  lemma {:induction false} HitsAppend<R>(a: seq<Repo>, b: seq<Repo>, f: Repo -> Option<R>)
    ensures Hits(a + b, f) == Hits(a, f) + Hits(b, f)
  {
    if a != [] {
      assert (a + b)[1..] == a[1..] + b;
      HitsAppend(a[1..], b, f);
    } else {
      assert a + b == b;
    }
  }

  /** No entries exactly when no parent yields anything. */
  lemma {:induction false} HitsEmptyIff<R>(ps: seq<Repo>, f: Repo -> Option<R>)
    ensures Hits(ps, f) == [] <==> forall k :: 0 <= k < |ps| ==> Hit(ps[k], f).None?
  {
    if ps != [] {
      HitsEmptyIff(ps[1..], f);
      assert forall k :: 1 <= k < |ps| ==> ps[k] == ps[1..][k - 1];
    }
  }

  /** Under `'outer'` join, `doParents` returns the list of every top-level
      parent's result, in parent order, or None when that list is empty. */
  lemma OuterJoinCollects<R>(r: Repo, f: Repo -> Option<R>)
    requires r.parentJoin == Outer
    ensures SearchParents(r, f) == if Hits(r.parents, f) == [] then None else Some(Group(Hits(r.parents, f)))
  {
    OuterScan(r, f, 0, []);
    assert r.parents[0..] == r.parents;
    assert [] + Hits(r.parents, f) == Hits(r.parents, f);
  }

  lemma {:induction false} OuterScan<R>(r: Repo, f: Repo -> Option<R>, i: nat, acc: seq<Found<R>>)
    requires r.parentJoin == Outer && i <= |r.parents|
    ensures var all := acc + Hits(r.parents[i..], f);
            Scan(r, f, i, acc) == if all == [] then None else Some(Group(all))
    decreases |r.parents| - i
  {
    if i < |r.parents| {
      var p := r.parents[i];
      var here := if Hit(p, f).Some? then [Hit(p, f).value] else [];
      assert r.parents[i..][0] == p && r.parents[i..][1..] == r.parents[i + 1..];
      assert Hits(r.parents[i..], f) == here + Hits(r.parents[i + 1..], f);
      assert acc + here == if Hit(p, f).Some? then acc + [Hit(p, f).value] else acc;
      assert Scan(r, f, i, acc) == Scan(r, f, i + 1, acc + here);
      OuterScan(r, f, i + 1, acc + here);
      assert acc + Hits(r.parents[i..], f) == (acc + here) + Hits(r.parents[i + 1..], f);
    } else {
      assert acc + Hits(r.parents[i..], f) == acc;
    }
  }

  /** Under `'outer'` join, two parents that both yield give a list of
      exactly their two results, first parent first. */
  lemma OuterTwoParents<R>(r: Repo, f: Repo -> Option<R>)
    requires r.parentJoin == Outer && |r.parents| == 2
    requires Hit(r.parents[0], f).Some? && Hit(r.parents[1], f).Some?
    ensures SearchParents(r, f) == Some(Group([Hit(r.parents[0], f).value, Hit(r.parents[1], f).value]))
  {
    OuterJoinCollects(r, f);
    var ps := r.parents;
    assert ps[1..][0] == ps[1] && ps[1..][1..] == [];
    assert Hits(ps[1..], f) == [Hit(ps[1], f).value] + Hits([], f);
    assert Hits(ps, f) == [Hit(ps[0], f).value] + Hits(ps[1..], f);
    assert Hits(ps, f) == [Hit(ps[0], f).value, Hit(ps[1], f).value];
  }

  /** Under `'left'` join, the first parent that yields a result decides:
      later parents are neither consulted nor visited. */
  lemma LeftFirstParentWins<R>(r: Repo, f: Repo -> Option<R>, i: nat)
    requires r.parentJoin == Left && i < |r.parents|
    requires forall j :: 0 <= j < i ==> Hit(r.parents[j], f).None?
    requires Hit(r.parents[i], f).Some?
    ensures SearchParents(r, f) == Hit(r.parents[i], f)
    ensures Trace(r, f) == TraceBefore(r, f, i) + Visit(r.parents[i], f)
  {
    LeftSkipScan(r, f, 0, i);
    LeftSkipTrace(r, f, 0, i);
    LeftStopTrace(r, f, i);
    assert TraceBefore(r, f, 0) + TraceFrom(r, f, 0) == Trace(r, f);
  }

  /** The nodes visited for the parents before `i`. */
  function TraceBefore<R>(r: Repo, f: Repo -> Option<R>, i: nat): seq<Repo>
    requires i <= |r.parents|
  {
    if i == 0 then [] else TraceBefore(r, f, i - 1) + Visit(r.parents[i - 1], f)
  }

  lemma {:induction false} LeftSkipScan<R>(r: Repo, f: Repo -> Option<R>, j: nat, i: nat)
    requires r.parentJoin == Left && j <= i < |r.parents|
    requires forall k :: 0 <= k < i ==> Hit(r.parents[k], f).None?
    requires Hit(r.parents[i], f).Some?
    ensures Scan(r, f, j, []) == Hit(r.parents[i], f)
    decreases i - j
  {
    if j < i {
      assert Hit(r.parents[j], f).None?;
      LeftSkipScan(r, f, j + 1, i);
    }
  }

  lemma {:induction false} LeftSkipTrace<R>(r: Repo, f: Repo -> Option<R>, j: nat, i: nat)
    requires r.parentJoin == Left && j <= i <= |r.parents|
    requires forall k :: j <= k < i ==> Hit(r.parents[k], f).None?
    ensures TraceBefore(r, f, j) + TraceFrom(r, f, j) == TraceBefore(r, f, i) + TraceFrom(r, f, i)
    decreases i - j
  {
    if j < i {
      assert Hit(r.parents[j], f).None?;
      LeftSkipTrace(r, f, j + 1, i);
      LeftSkipTraceCons(r, f, j, TraceBefore(r, f, i) + TraceFrom(r, f, i));
    }
  }

  /** Under `'left'` join the trace ends with the first parent that yields. */
  lemma LeftStopTrace<R>(r: Repo, f: Repo -> Option<R>, i: nat)
    requires r.parentJoin == Left && i < |r.parents|
    requires Hit(r.parents[i], f).Some?
    ensures TraceFrom(r, f, i) == Visit(r.parents[i], f)
  {
    assert TraceFrom(r, f, i) == Visit(r.parents[i], f) + [];
  }

  /** One skipped parent moves from the trace still to come to the trace
      already made. */
  lemma LeftSkipTraceCons<R>(r: Repo, f: Repo -> Option<R>, j: nat, whole: seq<Repo>)
    requires r.parentJoin == Left && j < |r.parents|
    requires Hit(r.parents[j], f).None?
    requires TraceBefore(r, f, j + 1) + TraceFrom(r, f, j + 1) == whole
    ensures TraceBefore(r, f, j) + TraceFrom(r, f, j) == whole
  {
    var v := Visit(r.parents[j], f);
    assert TraceFrom(r, f, j) == v + TraceFrom(r, f, j + 1);
    assert TraceBefore(r, f, j + 1) == TraceBefore(r, f, j) + v;
    SeqAssoc(TraceBefore(r, f, j), v, TraceFrom(r, f, j + 1));
  }

  lemma SeqAssoc<T>(a: seq<T>, b: seq<T>, c: seq<T>)
    ensures (a + b) + c == a + (b + c)
  {
  }

  /** Under `'outer'` join a parent that yields a result is not searched
      further: its own ancestors are not visited. */
  lemma OuterParentStops<R>(r: Repo, f: Repo -> Option<R>, i: nat)
    requires r.parentJoin == Outer && i < |r.parents| && f(r.parents[i]).Some?
    ensures TraceFrom(r, f, i) == [r.parents[i]] + TraceFrom(r, f, i + 1)
    ensures Hit(r.parents[i], f) == Some(Item(f(r.parents[i]).value))
  {
  }

  // ---------------------------------------------------------------------
  // Per-node operations and the operations built on the two primitives.
  // Each mapper call (`mapper.map(...)`, `mapper.getKeys(...)`, ...) is a
  // parameter `Mapper -> Option<X>` with the call's arguments closed over.

  /** A location stamped with the repository that produced it
      (`loc.setRepository(self)`). */
  datatype Located<L> = Located(location: L, repository: Repo)

  /** `Repository.doMap`: None without a mapper or when the mapper maps
      nothing; otherwise the mapper's location, stamped with this node. */
  function DoMap<L>(r: Repo, mapFn: Mapper -> Option<L>): (res: Option<Located<L>>)
    ensures res.Some? <==> r.mapper.Some? && mapFn(r.mapper.value).Some?
    ensures res.Some? ==> res.value == Located(mapFn(r.mapper.value).value, r)
  {
    if r.mapper.None? then None
    else
      match mapFn(r.mapper.value)
      case None => None
      case Some(loc) => Some(Located(loc, r))
  }

  /** The forwarding shared by `doGetKeys`, `doQueryMetadata` and
      `getMapperDefaultLevel`: None without a mapper, otherwise whatever the
      mapper returns. */
  function OnMapper<X>(r: Repo, call: Mapper -> Option<X>): (res: Option<X>)
    ensures r.mapper.None? ==> res.None?
    ensures r.mapper.Some? ==> res == call(r.mapper.value)
  {
    if r.mapper.None? then None else call(r.mapper.value)
  }

  /** `Repository.doGetKeys`. */
  function DoGetKeys<K>(r: Repo, keysFn: Mapper -> Option<K>): (res: Option<K>)
    ensures r.mapper.None? ==> res.None?
    ensures r.mapper.Some? ==> res == keysFn(r.mapper.value)
  {
    OnMapper(r, keysFn)
  }

  /** `Repository.doQueryMetadata`. */
  function DoQueryMetadata<M>(r: Repo, queryFn: Mapper -> Option<M>): (res: Option<M>)
    ensures r.mapper.None? ==> res.None?
    ensures r.mapper.Some? ==> res == queryFn(r.mapper.value)
  {
    OnMapper(r, queryFn)
  }

  /** `Repository.getMapperDefaultLevel`: this node only, never its
      parents or peers. */
  function GetMapperDefaultLevel<D>(r: Repo, levelFn: Mapper -> Option<D>): (res: Option<D>)
    ensures r.mapper.None? ==> res.None?
    ensures r.mapper.Some? ==> res == levelFn(r.mapper.value)
  {
    OnMapper(r, levelFn)
  }

  /** `Repository.map`: with `write` passed as the literal True, `doMap`
      over self and peers (the list of stamped locations); with any other
      `write` value, or none, the parent search. */
  function Map<L>(r: Repo, write: Option<Flag>, mapFn: Mapper -> Option<L>): (res: Option<Found<Located<L>>>)
    ensures write != Some(IsTrue) && r.parents == [] ==> res.None?
    ensures write == Some(IsTrue) && res.Some? ==> res.value.Group? && res.value.entries != []
  {
    if write == Some(IsTrue) then
      match SelfAndPeers(r, WriteCall(mapFn))
      case None => None
      case Some(xs) => Some(Group(seq(|xs|, k requires 0 <= k < |xs| => Item(xs[k]))))
    else
      SearchParents(r, (n: Repo) => DoMap(n, mapFn))
  }

  /** `Repository.getKeys`: the parent search over `doGetKeys`. */
  function GetKeys<K>(r: Repo, keysFn: Mapper -> Option<K>): (res: Option<Found<K>>)
    ensures r.parents == [] ==> res.None?
  {
    SearchParents(r, (n: Repo) => DoGetKeys(n, keysFn))
  }

  /** `Repository.queryMetadata`: the parent search over `doQueryMetadata`. */
  function QueryMetadata<M>(r: Repo, queryFn: Mapper -> Option<M>): (res: Option<Found<M>>)
    ensures r.parents == [] ==> res.None?
  {
    SearchParents(r, (n: Repo) => DoQueryMetadata(n, queryFn))
  }

  /** The node's mapper, if any. */
  function MapperOf(n: Repo): Option<Mapper> {
    n.mapper
  }

  /** The mapper call `doBackup` makes on one node: none without a mapper. */
  function BackupCall(n: Repo): Option<Yield<Mapper>> {
    AsSingle(MapperOf(n))
  }

  /** `Repository.backup`: the mappers whose `backup` is called, in call
      order (`doBackup` itself returns None, so `backup` returns None). */
  function Backup(r: Repo): (ms: seq<Mapper>)
    ensures r.mapper.Some? ==> ms != [] && ms[0] == r.mapper.value
    ensures r.mapper.None? ==> ms == Collect(r.peers, BackupCall)
  {
    Collect(Visits(r), BackupCall)
  }

  /** The per-node call of a write mapping: the node's `doMap`, as one
      location. */
  function WriteCall<L>(mapFn: Mapper -> Option<L>): Repo -> Option<Yield<Located<L>>> {
    (n: Repo) => AsSingle(DoMap(n, mapFn))
  }

  /** A write mapping yields exactly one location per visited node that
      maps, in visit order: the `j`-th location is the `doMap` result of
      the `j`-th such node. */
  lemma MapWriteCount<L>(ns: seq<Repo>, mapFn: Mapper -> Option<L>)
    ensures var xs := Collect(ns, WriteCall(mapFn));
            var ks := Yielding(ns, (n: Repo) => DoMap(n, mapFn), 0);
            && |xs| == |ks|
            && forall j :: 0 <= j < |xs| ==> xs[j] == DoMap(ns[ks[j]], mapFn).value
  {
    CollectSingles(ns, (n: Repo) => DoMap(n, mapFn), WriteCall(mapFn), 0);
    assert ns[0..] == ns;
  }

  /** Every location a write mapping yields is the `doMap` result of a
      visited node, stamped with that node. */
  lemma MapWriteStamped<L>(ns: seq<Repo>, mapFn: Mapper -> Option<L>, x: Located<L>)
    requires x in Collect(ns, WriteCall(mapFn))
    ensures x.repository in ns && DoMap(x.repository, mapFn) == Some(x)
  {
    CollectMembers(ns, WriteCall(mapFn), x);
    var k :| 0 <= k < |ns| && x in Contribution(WriteCall(mapFn)(ns[k]));
    assert DoMap(ns[k], mapFn) == Some(x);
  }

  /** A write mapping yields nothing exactly when no visited node maps. */
  lemma MapWriteEmptyIff<L>(ns: seq<Repo>, mapFn: Mapper -> Option<L>)
    ensures Collect(ns, WriteCall(mapFn)) == [] <==> forall k :: 0 <= k < |ns| ==> DoMap(ns[k], mapFn).None?
  {
    var xs := Collect(ns, WriteCall(mapFn));
    if xs != [] {
      MapWriteStamped(ns, mapFn, xs[0]);
      var k :| 0 <= k < |ns| && ns[k] == xs[0].repository;
      assert DoMap(ns[k], mapFn).Some?;
    } else {
      forall k | 0 <= k < |ns| ensures DoMap(ns[k], mapFn).None? {
        if DoMap(ns[k], mapFn).Some? {
          CollectMembers(ns, WriteCall(mapFn), DoMap(ns[k], mapFn).value);
        }
      }
    }
  }

  /** With `write` True, `map` returns None exactly when no node of self
      and peers maps; otherwise one stamped location per node that maps,
      in visit order. */
  lemma MapWrite<L>(r: Repo, mapFn: Mapper -> Option<L>)
    ensures var res := Map(r, Some(IsTrue), mapFn);
            var ks := Yielding(Visits(r), (n: Repo) => DoMap(n, mapFn), 0);
            && (res.None? <==> forall k :: 0 <= k <= |r.peers| ==> DoMap(Visits(r)[k], mapFn).None?)
            && (res.Some? ==>
                  && res.value.Group? && |res.value.entries| == |ks|
                  && forall j :: 0 <= j < |ks| ==>
                       var e := res.value.entries[j];
                       e.Item? && e.value == Located(DoMap(Visits(r)[ks[j]], mapFn).value.location, Visits(r)[ks[j]]))
  {
    var vs := Visits(r);
    var g := (n: Repo) => DoMap(n, mapFn);
    var ks := Yielding(vs, g, 0);
    var xs := Collect(vs, WriteCall(mapFn));
    MapWriteCount(vs, mapFn);
    MapWriteEmptyIff(vs, mapFn);
    assert SelfAndPeers(r, WriteCall(mapFn)) == if xs == [] then None else Some(xs);
    forall j | 0 <= j < |ks|
      ensures xs[j] == Located(DoMap(vs[ks[j]], mapFn).value.location, vs[ks[j]])
    {
      assert g(vs[ks[j]]).Some?;
      assert DoMap(vs[ks[j]], mapFn).value.repository == vs[ks[j]];
    }
  }

  /** Under `'left'` join throughout, a read mapping returns the location
      of the first ancestor, in depth-first priority order, whose mapper
      maps. */
  lemma MapReadLeft<L>(r: Repo, write: Option<Flag>, mapFn: Mapper -> Option<L>)
    requires AllLeft(r) && write != Some(IsTrue)
    ensures Map(r, write, mapFn) == Lift(FirstHit(Ancestors(r), (n: Repo) => DoMap(n, mapFn)))
  {
    LeftJoinFirstHit(r, (n: Repo) => DoMap(n, mapFn));
  }

  /** `backup` calls the mapper of every node of self and peers that has
      one, once each, self first and then the peers in declared order: the
      `j`-th call goes to the `j`-th node with a mapper. */
  lemma BackupCalls(r: Repo)
    ensures var ms := Backup(r);
            var ks := Yielding(Visits(r), MapperOf, 0);
            && |ms| == |ks|
            && forall j :: 0 <= j < |ms| ==> ms[j] == Visits(r)[ks[j]].mapper.value
  {
    CollectSingles(Visits(r), MapperOf, BackupCall, 0);
    assert Visits(r)[0..] == Visits(r);
  }

  /** `Repository.read` / `Repository.write`: delegated to this node's own
      access object, never to parents or peers; without one Python raises
      AttributeError. */
  function Read<B, T>(r: Repo, location: B, accessRead: (Access, B) -> T): (res: Result<T>)
    ensures r.access.None? <==> res == Err(AttributeError("read"))
    ensures r.access.Some? ==> res == Ok(accessRead(r.access.value, location))
  {
    if r.access.None? then Err(AttributeError("read")) else Ok(accessRead(r.access.value, location))
  }

  function Write<B, O, T>(r: Repo, location: B, obj: O, accessWrite: (Access, B, O) -> T): (res: Result<T>)
    ensures r.access.None? <==> res == Err(AttributeError("write"))
    ensures r.access.Some? ==> res == Ok(accessWrite(r.access.value, location, obj))
  {
    if r.access.None? then Err(AttributeError("write")) else Ok(accessWrite(r.access.value, location, obj))
  }

  /** Reading and writing depend on the node's access only: changing its
      parents, peers, mapper or join mode changes nothing. */
  lemma ReadWriteOnlyAccess<B, O, T>(r: Repo, s: Repo, location: B, obj: O,
                                    accessRead: (Access, B) -> T, accessWrite: (Access, B, O) -> T)
    requires r.access == s.access
    ensures Read(r, location, accessRead) == Read(s, location, accessRead)
    ensures Write(r, location, obj, accessWrite) == Write(s, location, obj, accessWrite)
  {
  }

  // ---------------------------------------------------------------------
  // Building the graph from a nested configuration

  /** What `cfg['repository']` can hold: a dotted name (not supported), a
      repository class to instantiate, or an already built repository. */
  datatype RepositorySlot = RepositoryName(name: string) | RepositoryClass | RepositoryInstance(repo: Repo)

  /** A `parents`/`peers` value: a single entry (a dict or any non-iterable)
      or a sequence of entries. */
  datatype Relatives = One(node: CfgNode) | Several(nodes: seq<CfgNode>)

  /** One entry: a value that is not a dict (returned unchanged) or a
      nested configuration dict. */
  datatype CfgNode = Built(repo: Repo) | Spec(cfg: RepoCfg)

  /** A repository configuration dict, key by key. */
  datatype RepoCfg = RepoCfg(
    repository: Option<RepositorySlot>,
    access: Slot<Access>,
    mapper: Slot<Mapper>,
    parents: Option<Relatives>,
    peers: Option<Relatives>,
    parentJoin: Slot<string>,
    id: Slot<string>)

  /** The calls `makeFromCfg` makes into the access and mapper layers:
      `access.makeFromCfg(cfg)`, `access.mapperClass()` (which may raise,
      or return None) and `mapper.makeFromCfg(cfg)`. */
  datatype Factories = Factories(
    makeAccess: (Access, RepoCfg) -> Access,
    mapperClass: Access -> Result<Option<Mapper>>,
    makeMapper: (Mapper, RepoCfg) -> Mapper)

  function SlotValue<T>(s: Slot<T>): Option<T> {
    if s.Value? then Some(s.v) else None
  }

  /** The `access` step: a present, non-None access is replaced by the one
      it makes from the cfg. */
  function AccessStep(fs: Factories, c: RepoCfg): (c': RepoCfg)
    ensures c' == c.(access := c'.access)
    ensures c.access.Value? <==> c'.access.Value?
  {
    if c.access.Value? then c.(access := Value(fs.makeAccess(c.access.v, c))) else c
  }

  /** The `mapper` step: a None mapper is replaced by the access's mapper
      class (reading `cfg['access']`, which raises KeyError when absent),
      and a non-None mapper class is replaced by the mapper it makes. */
  function MapperStep(fs: Factories, c: RepoCfg): (r: Result<RepoCfg>)
    ensures r.Ok? ==> r.value == c.(mapper := r.value.mapper)
    ensures c.mapper == Null && c.access == Missing ==> r == Err(KeyError("access"))
    ensures c.mapper.Missing? ==> r == Ok(c)
  {
    match c.mapper
    case Missing => Ok(c)
    case Value(m) => Ok(c.(mapper := Value(fs.makeMapper(m, c))))
    case Null =>
      match c.access
      case Missing => Err(KeyError("access"))
      case Null => Ok(c)
      case Value(a) =>
        var cls :- fs.mapperClass(a);
        if cls.None? then Ok(c)
        else
          var c1 := c.(mapper := Value(cls.value));
          Ok(c.(mapper := Value(fs.makeMapper(cls.value, c1))))
  }

  /** The `parentJoin` argument: the constructor's default `'left'` when
      the key is absent. */
  function JoinArg(s: Slot<string>): Option<string> {
    match s
    case Missing => Some("left")
    case Null => None
    case Value(j) => Some(j)
  }

  /** An entry list after materialisation: every entry is the built
      repository. */
  function Rebuilt(rs: seq<Repo>): (r: Relatives)
    ensures r.Several? && |r.nodes| == |rs|
    ensures forall k :: 0 <= k < |rs| ==> r.nodes[k] == Built(rs[k])
  {
    Several(seq(|rs|, k requires 0 <= k < |rs| => Built(rs[k])))
  }

  /** What `Repository.makeFromCfg(node)` returns or raises, together with
      the configuration as it rewrote it. */
  function Materialize(fs: Factories, node: CfgNode): (r: Result<(Repo, CfgNode)>)
    ensures node.Built? ==> r == Ok((node.repo, node))
    ensures node.Spec? && r.Ok? ==> r.value.1.Spec? && r.value.1.cfg.repository == Some(RepositoryInstance(r.value.0))
    ensures node.Spec? && node.cfg.repository.None? ==> r.Err?
    decreases node
  {
    match node
    case Built(x) => Ok((x, node))
    case Spec(c) =>
      var c1 := AccessStep(fs, c);
      var c2 :- MapperStep(fs, c1);
      var ps :- MaterializeOpt(fs, c.parents);
      var qs :- MaterializeOpt(fs, c.peers);
      var c3 := c2.(parents := if ps.None? then None else Some(Rebuilt(ps.value)),
                     peers := if qs.None? then None else Some(Rebuilt(qs.value)));
      match c.repository
      case None => Err(KeyError("repository"))
      case Some(RepositoryName(_)) => Err(TypeError("'NotImplementedType' object is not callable"))
      case Some(RepositoryInstance(x)) => Ok((x, Spec(c3)))
      case Some(RepositoryClass) =>
        var x :- NewRepository(SlotValue(c3.mapper), SlotValue(c3.access), ps, qs, SlotValue(c3.id), JoinArg(c3.parentJoin));
        Ok((x, Spec(c3.(repository := Some(RepositoryInstance(x))))))
  }

  function MaterializeOpt(fs: Factories, rel: Option<Relatives>): Result<Option<seq<Repo>>>
    decreases rel
  {
    match rel
    case None => Ok(None)
    case Some(rs) =>
      var built :- MaterializeAll(fs, rs);
      Ok(Some(built))
  }

  /** The entries of a `parents`/`peers` value materialised in order: a
      single entry is first wrapped into a one-element list. */
  function MaterializeAll(fs: Factories, rel: Relatives): Result<seq<Repo>>
    decreases rel
  {
    match rel
    case One(n) =>
      var x :- Materialize(fs, n);
      Ok([x.0])
    case Several(ns) => MaterializeFrom(fs, rel, 0, [])
  }

  /** The loop over a list of entries from index `i` on, with `done` the
      repositories built so far; the first entry that raises ends it. */
  function MaterializeFrom(fs: Factories, rel: Relatives, i: nat, done: seq<Repo>): Result<seq<Repo>>
    requires rel.Several? && i <= |rel.nodes|
    decreases rel, |rel.nodes| - i
  {
    if i == |rel.nodes| then Ok(done)
    else
      var x :- Materialize(fs, rel.nodes[i]);
      MaterializeFrom(fs, rel, i + 1, done + [x.0])
  }

  /** `Repository.makeFromCfg`: a value that is not a dict is returned
      unchanged; a dict is rewritten key by key (`access`, `mapper`, each
      entry of `parents` and of `peers`, then `repository`) and the
      repository it ends up holding is returned. The rewritten dict is
      returned beside it. */
  method MakeFromCfg(fs: Factories, node: CfgNode) returns (r: Result<(Repo, CfgNode)>)
    ensures r == Materialize(fs, node)
    decreases node
  {
    match node {
      case Built(x) =>
        return Ok((x, node));
      case Spec(c) =>
        var cfg := c;
        if cfg.access.Value? {
          cfg := cfg.(access := Value(fs.makeAccess(cfg.access.v, cfg)));
        }
        assert cfg == AccessStep(fs, c);
        var mapped := MakeMapper(fs, cfg);
        if mapped.Err? {
          return Err(mapped.error);
        }
        cfg := mapped.value;
        var ps: Option<seq<Repo>> := None;
        if c.parents.Some? {
          var res := MakeAll(fs, c.parents.value);
          if res.Err? {
            return Err(res.error);
          }
          ps := Some(res.value);
          cfg := cfg.(parents := Some(Rebuilt(res.value)));
        }
        assert MaterializeOpt(fs, c.parents) == Ok(ps);
        var qs: Option<seq<Repo>> := None;
        if c.peers.Some? {
          var res := MakeAll(fs, c.peers.value);
          if res.Err? {
            return Err(res.error);
          }
          qs := Some(res.value);
          cfg := cfg.(peers := Some(Rebuilt(res.value)));
        }
        assert MaterializeOpt(fs, c.peers) == Ok(qs);
        match c.repository {
          case None =>
            return Err(KeyError("repository"));
          case Some(RepositoryName(_)) =>
            return Err(TypeError("'NotImplementedType' object is not callable"));
          case Some(RepositoryInstance(x)) =>
            return Ok((x, Spec(cfg)));
          case Some(RepositoryClass) =>
            var made := NewRepository(SlotValue(cfg.mapper), SlotValue(cfg.access), ps, qs, SlotValue(cfg.id), JoinArg(cfg.parentJoin));
            if made.Err? {
              return Err(made.error);
            }
            cfg := cfg.(repository := Some(RepositoryInstance(made.value)));
            return Ok((made.value, Spec(cfg)));
        }
    }
  }

  /** The `mapper` key of `makeFromCfg`: a None mapper is looked up from
      the access, then a mapper class is instantiated from the cfg. */
  method MakeMapper(fs: Factories, c: RepoCfg) returns (r: Result<RepoCfg>)
    ensures r == MapperStep(fs, c)
  {
    var cfg := c;
    if !cfg.mapper.Missing? {
      if cfg.mapper.Null? {
        if cfg.access.Missing? {
          return Err(KeyError("access"));
        }
        if cfg.access.Value? {
          var cls := fs.mapperClass(cfg.access.v);
          if cls.Err? {
            return Err(cls.error);
          }
          if cls.value.Some? {
            cfg := cfg.(mapper := Value(cls.value.value));
          }
        }
      }
      if cfg.mapper.Value? {
        cfg := cfg.(mapper := Value(fs.makeMapper(cfg.mapper.v, cfg)));
      }
    }
    return Ok(cfg);
  }

  /** The loop `for i in xrange(len(entries))` that replaces each entry by
      the repository made from it (a single entry is wrapped first). */
  method MakeAll(fs: Factories, rel: Relatives) returns (r: Result<seq<Repo>>)
    ensures r == MaterializeAll(fs, rel)
    decreases rel
  {
    match rel {
      case One(n) =>
        var x := MakeFromCfg(fs, n);
        if x.Err? {
          return Err(x.error);
        }
        return Ok([x.value.0]);
      case Several(ns) =>
        var built: seq<Repo> := [];
        for i := 0 to |ns|
          invariant MaterializeAll(fs, rel) == MaterializeFrom(fs, rel, i, built)
        {
          var x := MakeFromCfg(fs, ns[i]);
          if x.Err? {
            return Err(x.error);
          }
          built := built + [x.value.0];
        }
        return Ok(built);
    }
  }

  /** The entries `makeFromCfg` materialises for a `parents`/`peers` value. */
  function Entries(rel: Relatives): (ns: seq<CfgNode>)
    ensures rel.One? ==> ns == [rel.node]
    ensures rel.Several? ==> ns == rel.nodes
  {
    if rel.One? then [rel.node] else rel.nodes
  }

  /** The entry loop succeeds exactly when every remaining entry does. */
  lemma {:induction false} MaterializeFromOkIff(fs: Factories, rel: Relatives, i: nat, done: seq<Repo>)
    requires rel.Several? && i <= |rel.nodes|
    ensures MaterializeFrom(fs, rel, i, done).Ok? <==> forall k :: i <= k < |rel.nodes| ==> Materialize(fs, rel.nodes[k]).Ok?
    decreases |rel.nodes| - i
  {
    if i < |rel.nodes| {
      var x := Materialize(fs, rel.nodes[i]);
      if x.Ok? {
        MaterializeFromOkIff(fs, rel, i + 1, done + [x.value.0]);
      }
    }
  }

  /** On success the loop yields one repository per remaining entry, in
      entry order, after `done`. */
  lemma {:induction false} MaterializeFromValues(fs: Factories, rel: Relatives, i: nat, done: seq<Repo>)
    requires rel.Several? && i <= |rel.nodes|
    requires MaterializeFrom(fs, rel, i, done).Ok?
    ensures var v := MaterializeFrom(fs, rel, i, done).value;
            && |v| == |done| + |rel.nodes| - i
            && v[..|done|] == done
            && forall k :: i <= k < |rel.nodes| ==>
                 Materialize(fs, rel.nodes[k]).Ok? && v[|done| + k - i] == Materialize(fs, rel.nodes[k]).value.0
    decreases |rel.nodes| - i
  {
    if i < |rel.nodes| {
      var x := Materialize(fs, rel.nodes[i]);
      MaterializeFromValues(fs, rel, i + 1, done + [x.value.0]);
      MaterializeFromValuesCons(fs, rel, i, done, MaterializeFrom(fs, rel, i + 1, done + [x.value.0]).value);
    }
  }

  lemma MaterializeFromValuesCons(fs: Factories, rel: Relatives, i: nat, done: seq<Repo>, v: seq<Repo>)
    requires rel.Several? && i < |rel.nodes| && Materialize(fs, rel.nodes[i]).Ok?
    requires |v| == |done| + |rel.nodes| - i
    requires v[..|done| + 1] == done + [Materialize(fs, rel.nodes[i]).value.0]
    requires forall k :: i + 1 <= k < |rel.nodes| ==>
               Materialize(fs, rel.nodes[k]).Ok? && v[|done| + 1 + k - (i + 1)] == Materialize(fs, rel.nodes[k]).value.0
    ensures v[..|done|] == done
    ensures forall k :: i <= k < |rel.nodes| ==>
              Materialize(fs, rel.nodes[k]).Ok? && v[|done| + k - i] == Materialize(fs, rel.nodes[k]).value.0
  {
    assert v[..|done|] == v[..|done| + 1][..|done|];
    assert v[|done|] == v[..|done| + 1][|done|];
  }

  /** On failure the loop raises what the first failing entry raises. */
  lemma {:induction false} MaterializeFromError(fs: Factories, rel: Relatives, i: nat, done: seq<Repo>)
    requires rel.Several? && i <= |rel.nodes|
    requires MaterializeFrom(fs, rel, i, done).Err?
    ensures exists k :: && i <= k < |rel.nodes| && Materialize(fs, rel.nodes[k]).Err?
                        && MaterializeFrom(fs, rel, i, done).error == Materialize(fs, rel.nodes[k]).error
                        && forall j :: i <= j < k ==> Materialize(fs, rel.nodes[j]).Ok?
    decreases |rel.nodes| - i
  {
    var x := Materialize(fs, rel.nodes[i]);
    if x.Ok? {
      MaterializeFromError(fs, rel, i + 1, done + [x.value.0]);
      var k :| && i + 1 <= k < |rel.nodes| && Materialize(fs, rel.nodes[k]).Err?
               && MaterializeFrom(fs, rel, i + 1, done + [x.value.0]).error == Materialize(fs, rel.nodes[k]).error
               && forall j :: i + 1 <= j < k ==> Materialize(fs, rel.nodes[j]).Ok?;
      assert forall j :: i <= j < k ==> Materialize(fs, rel.nodes[j]).Ok?;
    } else {
      assert MaterializeFrom(fs, rel, i, done).error == x.error;
    }
  }

  /** A single entry is materialised into a one-element list. */
  lemma MaterializeOne(fs: Factories, rel: Relatives)
    requires rel.One?
    ensures var x := Materialize(fs, rel.node);
            MaterializeAll(fs, rel) == if x.Ok? then Ok([x.value.0]) else Err(x.error)
  {
  }

  /** `parents`/`peers` materialise exactly when every entry does, into
      one repository per entry in entry order; a single entry is wrapped
      into a one-element list. */
  lemma MaterializeAllOrder(fs: Factories, rel: Relatives)
    ensures var res := MaterializeAll(fs, rel);
            var ns := Entries(rel);
            && (res.Ok? <==> forall k :: 0 <= k < |ns| ==> Materialize(fs, ns[k]).Ok?)
            && (res.Ok? ==> |res.value| == |ns| && forall k :: 0 <= k < |ns| ==> res.value[k] == Materialize(fs, ns[k]).value.0)
  {
    if rel.Several? {
      MaterializeFromOkIff(fs, rel, 0, []);
      if MaterializeAll(fs, rel).Ok? {
        MaterializeFromValues(fs, rel, 0, []);
      }
    } else {
      var ns := Entries(rel);
      MaterializeOne(fs, rel);
      assert ns == [rel.node] && ns[0] == rel.node;
      assert (forall k :: 0 <= k < |ns| ==> Materialize(fs, ns[k]).Ok?) <==> Materialize(fs, rel.node).Ok?;
    }
  }

  /** A repository class is called with exactly the keys present: absent
      `parents`/`peers` become empty, an absent `parentJoin` is `'left'`,
      an absent `id`, `access` or `mapper` is None; the materialised
      entries are passed in order. */
  lemma MaterializeClass(fs: Factories, c: RepoCfg)
    requires c.repository == Some(RepositoryClass)
    requires Materialize(fs, Spec(c)).Ok?
    ensures var x := Materialize(fs, Spec(c)).value.0;
            && MaterializeOpt(fs, c.parents).Ok? && MaterializeOpt(fs, c.peers).Ok?
            && MapperStep(fs, AccessStep(fs, c)).Ok?
            && x.parents == (if c.parents.None? then [] else MaterializeAll(fs, c.parents.value).value)
            && x.peers == (if c.peers.None? then [] else MaterializeAll(fs, c.peers.value).value)
            && (c.parentJoin == Missing || c.parentJoin == Value("left") || c.parentJoin == Value("outer"))
            && x.parentJoin == (if c.parentJoin == Value("outer") then Outer else Left)
            && x.id == SlotValue(c.id)
            && x.access == SlotValue(AccessStep(fs, c).access)
            && x.mapper == SlotValue(MapperStep(fs, AccessStep(fs, c)).value.mapper)
  {
  }

  /** Once the access, mapper and entries are made, calling a repository
      class fails, with RuntimeError, exactly when `parentJoin` is present
      and neither `'left'` nor `'outer'` (None included). */
  lemma MaterializeJoinChecked(fs: Factories, c: RepoCfg)
    requires c.repository == Some(RepositoryClass)
    requires MapperStep(fs, AccessStep(fs, c)).Ok?
    requires MaterializeOpt(fs, c.parents).Ok? && MaterializeOpt(fs, c.peers).Ok?
    ensures Materialize(fs, Spec(c)).Err? <==>
              !(c.parentJoin == Missing || c.parentJoin == Value("left") || c.parentJoin == Value("outer"))
    ensures Materialize(fs, Spec(c)).Err? ==> Materialize(fs, Spec(c)).error.RuntimeError?
  {
  }

  /** Entries that are already repositories are passed through unchanged. */
  lemma {:induction false} MaterializeRebuilt(fs: Factories, rs: seq<Repo>, i: nat, done: seq<Repo>)
    requires i <= |rs|
    ensures MaterializeFrom(fs, Rebuilt(rs), i, done) == Ok(done + rs[i..])
    decreases |rs| - i
  {
    if i < |rs| {
      MaterializeRebuilt(fs, rs, i + 1, done + [rs[i]]);
      assert done + [rs[i]] + rs[i + 1..] == done + rs[i..];
    } else {
      assert done + rs[i..] == done;
    }
  }

  /** Materialising the rewritten configuration again gives back the same
      repository (the access and mapper factories are called again, so this
      needs `mapperClass` not to raise). */
  lemma MaterializeAgain(fs: Factories, node: CfgNode)
    requires forall a :: fs.mapperClass(a).Ok?
    requires Materialize(fs, node).Ok?
    ensures Materialize(fs, Materialize(fs, node).value.1).Ok?
    ensures Materialize(fs, Materialize(fs, node).value.1).value.0 == Materialize(fs, node).value.0
  {
    if node.Spec? {
      var c := node.cfg;
      var c2 := MapperStep(fs, AccessStep(fs, c)).value;
      var ps := MaterializeOpt(fs, c.parents).value;
      var qs := MaterializeOpt(fs, c.peers).value;
      var again := Materialize(fs, node).value.1.cfg;
      assert again.parents == (if ps.None? then None else Some(Rebuilt(ps.value)));
      assert again.peers == (if qs.None? then None else Some(Rebuilt(qs.value)));
      if ps.Some? {
        MaterializeRebuilt(fs, ps.value, 0, []);
        assert [] + ps.value[0..] == ps.value;
        assert MaterializeAll(fs, Rebuilt(ps.value)) == MaterializeFrom(fs, Rebuilt(ps.value), 0, []);
      }
      assert MaterializeOpt(fs, again.parents) == Ok(ps);
      if qs.Some? {
        MaterializeRebuilt(fs, qs.value, 0, []);
        assert [] + qs.value[0..] == qs.value;
        assert MaterializeAll(fs, Rebuilt(qs.value)) == MaterializeFrom(fs, Rebuilt(qs.value), 0, []);
      }
      assert MaterializeOpt(fs, again.peers) == Ok(qs);
      assert again.mapper == c2.mapper && again.access == c2.access;
      assert MapperStep(fs, AccessStep(fs, again)).Ok?;
      assert again.repository == Some(RepositoryInstance(Materialize(fs, node).value.0));
    }
  }

  // ---------------------------------------------------------------------
  // Reading repository configurations

  /** A loaded configuration dict. */
  type CfgDict = map<string, PyValue>

  /** The root injection of `RepositoryCfg.butlerRead`: the loaded dict
      with `root` set to the directory of the file it came from; every
      other key is kept. */
  function WithRoot(cfg: CfgDict, location: string): (c: CfgDict)
    ensures c.Keys == cfg.Keys + {"root"}
    ensures c["root"] == PyStr(PosixPath.Dirname(location))
    ensures forall k :: k in cfg && k != "root" ==> c[k] == cfg[k]
  {
    cfg["root" := PyStr(PosixPath.Dirname(location))]
  }

  /** `RepositoryCfg.butlerRead`: only YAML storage is supported; one
      configuration per location, in location order, each loaded by `load`
      (the file parse) and given its `root`. */
  method ButlerRead(bl: ButlerLocation, load: string -> CfgDict) returns (r: Result<seq<CfgDict>>)
    ensures bl.storageName != Some("YamlStorage") <==> r == Err(NotImplementedError)
    ensures bl.storageName == Some("YamlStorage") ==> r.Ok?
    ensures r.Ok? ==> |r.value| == |bl.locations|
    ensures r.Ok? ==> forall k :: 0 <= k < |bl.locations| ==> r.value[k] == WithRoot(load(bl.locations[k]), bl.locations[k])
  {
    if bl.storageName != Some("YamlStorage") {
      return Err(NotImplementedError);
    }
    var ret: seq<CfgDict> := [];
    for i := 0 to |bl.locations|
      invariant |ret| == i
      invariant forall k :: 0 <= k < i ==> ret[k] == WithRoot(load(bl.locations[k]), bl.locations[k])
    {
      var location := bl.locations[i];
      var cfg := load(location);
      cfg := cfg["root" := PyStr(PosixPath.Dirname(location))];
      assert cfg == WithRoot(load(location), location);
      ret := ret + [cfg];
    }
    return Ok(ret);
  }
}
