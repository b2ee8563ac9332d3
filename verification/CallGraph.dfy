/** Strongly connected components of the call graph (src/total.rs).

    `CallComponents` is the iterative algorithm, with its explicit work stack.
    Its loop is described as a transition system over `State`; each transition
    has one lemma that keeps the invariant, and the method refines it. */
module CallGraph {
  import opened Counting

  /** `g[v]` lists the callees of function `v`, one entry a call. */
  type Graph = seq<seq<nat>>

  ghost predicate Closed(g: Graph) {
    forall v, k :: 0 <= v < |g| && 0 <= k < |g[v]| ==> g[v][k] < |g|
  }

  /** The marker `usize::MAX`: no vertex number can reach it. */
  const UNSEEN: nat := 0xFFFF_FFFF_FFFF_FFFF

  // ------------------------------------------------------------ reachability

  ghost predicate Path(g: Graph, p: seq<nat>) {
    && |p| > 0
    && (forall i :: 0 <= i < |p| ==> p[i] < |g|)
    && (forall i :: 0 <= i < |p| - 1 ==> p[i + 1] in g[p[i]])
  }

  ghost predicate PathFrom(g: Graph, p: seq<nat>, u: nat, v: nat) {
    Path(g, p) && p[0] == u && p[|p| - 1] == v
  }

  ghost predicate Reach(g: Graph, u: nat, v: nat) {
    exists p :: PathFrom(g, p, u, v)
  }

  ghost predicate Mutual(g: Graph, u: nat, v: nat) {
    Reach(g, u, v) && Reach(g, v, u)
  }

  lemma ReachSelf(g: Graph, u: nat)
    requires u < |g|
    ensures Reach(g, u, u)
  {
    assert PathFrom(g, [u], u, u);
  }

  lemma ReachEdge(g: Graph, u: nat, v: nat)
    requires u < |g| && v < |g| && v in g[u]
    ensures Reach(g, u, v)
  {
    assert PathFrom(g, [u, v], u, v);
  }

  lemma ReachTrans(g: Graph, u: nat, v: nat, w: nat)
    requires Reach(g, u, v) && Reach(g, v, w)
    ensures Reach(g, u, w)
  {
    var p :| PathFrom(g, p, u, v);
    var q :| PathFrom(g, q, v, w);
    var r := p + q[1..];
    forall i | 0 <= i < |r| - 1
      ensures r[i + 1] in g[r[i]]
    {
      if i >= |p| - 1 {
        assert r[i] == q[i - |p| + 1] && r[i + 1] == q[i - |p| + 2];
      }
    }
    assert PathFrom(g, r, u, w);
  }

  /** A set no edge leaves holds everything its members reach. */
  lemma ReachStays(g: Graph, s: set<nat>, u: nat, v: nat)
    requires forall x, k :: x in s && x < |g| && 0 <= k < |g[x]| ==> g[x][k] in s
    requires u in s && Reach(g, u, v)
    ensures v in s
  {
    var p :| PathFrom(g, p, u, v);
    PathStays(g, s, p, |p| - 1);
  }

  lemma {:induction false} PathStays(g: Graph, s: set<nat>, p: seq<nat>, i: nat)
    requires forall x, k :: x in s && x < |g| && 0 <= k < |g[x]| ==> g[x][k] in s
    requires Path(g, p) && p[0] in s && i < |p|
    ensures p[i] in s
  {
    if i > 0 {
      PathStays(g, s, p, i - 1);
      var k :| 0 <= k < |g[p[i - 1]]| && g[p[i - 1]][k] == p[i];
    }
  }

  // ---------------------------------------------------------------- states

  /** What the loop holds. `order`, `path`, `done` and `limbo` are history: the
      vertices by discovery number, the discovered part of the work stack, how
      many calls of each vertex have been followed, and the callee that has been
      pushed but not discovered. */
  datatype State = State(
    index: seq<nat>, low: seq<nat>, onStack: seq<bool>, comp: seq<nat>,
    ncomp: nat, stack: seq<nat>,
    order: seq<nat>, path: seq<nat>, done: seq<nat>, limbo: set<nat>)

  ghost predicate Sizes(g: Graph, s: State) {
    |s.index| == |s.low| == |s.onStack| == |s.comp| == |s.done| == |g|
  }

  /** `order` lists the discovered vertices by number. */
  ghost predicate Numbered(index: seq<nat>, order: seq<nat>) {
    && |order| < UNSEEN
    && (forall i :: 0 <= i < |order| ==> order[i] < |index| && index[order[i]] == i)
    && (forall v :: 0 <= v < |index| && index[v] != UNSEEN ==> index[v] < |order| && order[index[v]] == v)
  }

  /** `onStack` is membership of `stack`, which is sorted by number. */
  ghost predicate StackOk(index: seq<nat>, onStack: seq<bool>, stack: seq<nat>)
    requires |index| == |onStack|
  {
    && (forall i :: 0 <= i < |stack| ==> stack[i] < |index| && index[stack[i]] != UNSEEN && onStack[stack[i]])
    && (forall i, j :: 0 <= i < j < |stack| ==> index[stack[i]] < index[stack[j]])
    && (forall v :: 0 <= v < |index| && onStack[v] ==> v in stack)
  }

  ghost predicate PathOk(index: seq<nat>, onStack: seq<bool>, path: seq<nat>)
    requires |index| == |onStack|
  {
    && (forall i :: 0 <= i < |path| ==> path[i] < |index| && onStack[path[i]])
    && (forall i, j :: 0 <= i < j < |path| ==> index[path[i]] < index[path[j]])
  }

  /** A vertex off the path is untouched or finished, and a followed call leads
      to a discovered vertex or to the pending one. */
  ghost predicate DoneOk(g: Graph, index: seq<nat>, path: seq<nat>, done: seq<nat>, limbo: set<nat>)
    requires |index| == |done| == |g| && Closed(g)
  {
    && (forall v :: 0 <= v < |g| ==> done[v] <= |g[v]|)
    && (forall v :: 0 <= v < |g| && index[v] == UNSEEN ==> done[v] == 0)
    && (forall v :: 0 <= v < |g| && index[v] != UNSEEN && v !in path ==> done[v] == |g[v]|)
    && (forall v, j :: 0 <= v < |g| && 0 <= j < done[v] ==> index[g[v][j]] != UNSEEN || g[v][j] in limbo)
  }

  /** Given a component: discovered, and no longer on the stack. */
  ghost predicate Settled(index: seq<nat>, onStack: seq<bool>, v: nat)
    requires v < |index| == |onStack|
  {
    index[v] != UNSEEN && !onStack[v]
  }

  /** No edge leaves the vertices already given a component, and an edge between
      two components goes to the one given out first. */
  ghost predicate CompClosed(g: Graph, index: seq<nat>, onStack: seq<bool>, comp: seq<nat>, ncomp: nat)
    requires |index| == |onStack| == |comp| == |g| && Closed(g)
  {
    && (forall v :: 0 <= v < |g| && Settled(index, onStack, v) ==> comp[v] < ncomp)
    && (forall v, j :: 0 <= v < |g| && Settled(index, onStack, v) && 0 <= j < |g[v]| ==>
          Settled(index, onStack, g[v][j]) && comp[g[v][j]] <= comp[v])
  }

  /** The components given out are the classes of mutual reachability. */
  ghost predicate CompExact(g: Graph, index: seq<nat>, onStack: seq<bool>, comp: seq<nat>)
    requires |index| == |onStack| == |comp| == |g|
  {
    forall u, v :: 0 <= u < |g| && 0 <= v < |g| && Settled(index, onStack, u) && Settled(index, onStack, v) ==>
      (comp[u] == comp[v] <==> Mutual(g, u, v))
  }

  ghost predicate UpOk(g: Graph, index: seq<nat>, onStack: seq<bool>, path: seq<nat>)
    requires |index| == |onStack| && PathOk(index, onStack, path)
  {
    forall i, y :: 0 <= i < |path| && 0 <= y < |index| && onStack[y] && index[path[i]] <= index[y] ==>
      Reach(g, path[i], y)
  }

  /** `y` reaches an unfinished vertex discovered no later than itself. */
  ghost predicate Anchored(g: Graph, index: seq<nat>, onStack: seq<bool>, path: seq<nat>, y: nat)
    requires y < |index| == |onStack| && PathOk(index, onStack, path)
  {
    exists i :: 0 <= i < |path| && index[path[i]] <= index[y] && Reach(g, y, path[i])
  }

  ghost predicate DownOk(g: Graph, index: seq<nat>, onStack: seq<bool>, path: seq<nat>)
    requires |index| == |onStack| && PathOk(index, onStack, path)
  {
    forall y :: 0 <= y < |index| && onStack[y] ==> Anchored(g, index, onStack, path, y)
  }

  /** `low` names a stacked vertex the unfinished one reaches. */
  ghost predicate LowSound(g: Graph, index: seq<nat>, onStack: seq<bool>, order: seq<nat>, path: seq<nat>,
                           low: seq<nat>)
    requires |index| == |onStack| == |low| && Numbered(index, order) && PathOk(index, onStack, path)
  {
    forall i :: 0 <= i < |path| ==>
      && low[path[i]] <= index[path[i]]
      && low[path[i]] < |order|
      && onStack[order[low[path[i]]]]
      && Reach(g, path[i], order[low[path[i]]])
  }

  /** Whether `u` was discovered while `path[i]` was the deepest unfinished vertex. */
  ghost predicate Segment(index: seq<nat>, path: seq<nat>, i: nat, u: nat)
    requires i < |path| && u < |index|
    requires forall k :: 0 <= k < |path| ==> path[k] < |index|
  {
    && index[path[i]] <= index[u]
    && (i + 1 < |path| ==> index[u] < index[path[i + 1]])
  }

  /** `low` is at most the number of every stacked vertex an explored edge of
      the segment leads to. */
  ghost predicate LowComplete(g: Graph, index: seq<nat>, onStack: seq<bool>, path: seq<nat>, done: seq<nat>,
                              low: seq<nat>)
    requires |index| == |onStack| == |low| == |done| == |g| && Closed(g) && PathOk(index, onStack, path)
    requires forall v :: 0 <= v < |g| ==> done[v] <= |g[v]|
  {
    forall i, u, j ::
      (0 <= i < |path| && 0 <= u < |g| && onStack[u] && Segment(index, path, i, u) &&
       0 <= j < done[u] && onStack[g[u][j]])
      ==> low[path[i]] <= index[g[u][j]]
  }

  ghost predicate Inv(g: Graph, s: State) {
    && Closed(g) && Sizes(g, s)
    && Numbered(s.index, s.order)
    && StackOk(s.index, s.onStack, s.stack)
    && PathOk(s.index, s.onStack, s.path)
    && DoneOk(g, s.index, s.path, s.done, s.limbo)
    && s.ncomp + |s.path| <= |s.order|
    && CompClosed(g, s.index, s.onStack, s.comp, s.ncomp)
    && CompExact(g, s.index, s.onStack, s.comp)
    && UpOk(g, s.index, s.onStack, s.path)
    && DownOk(g, s.index, s.onStack, s.path)
    && LowSound(g, s.index, s.onStack, s.order, s.path, s.low)
    && LowComplete(g, s.index, s.onStack, s.path, s.done, s.low)
  }

  // ----------------------------------------------------------- transitions

  ghost function Top(path: seq<nat>): nat requires path != [] {
    path[|path| - 1]
  }

  /** Discover `v`: number it and stack it. */
  ghost function Visit(s: State, v: nat): State
    requires v < |s.index| == |s.low| == |s.onStack|
  {
    s.(index := s.index[v := |s.order|], low := s.low[v := |s.order|], onStack := s.onStack[v := true],
       stack := s.stack + [v], order := s.order + [v], path := s.path + [v], limbo := {})
  }

  function Min(a: nat, b: nat): nat { if a <= b then a else b }

  /** Follow one more call of `v`, to a vertex already discovered. */
  ghost function FollowSeen(s: State, v: nat, w: nat): State
    requires v < |s.done| == |s.low| && w < |s.index| == |s.onStack|
  {
    s.(done := s.done[v := s.done[v] + 1],
       low := if s.onStack[w] then s.low[v := Min(s.low[v], s.index[w])] else s.low)
  }

  /** Follow one more call of `v`, to a vertex that has to be discovered first. */
  ghost function FollowNew(s: State, v: nat, w: nat): State
    requires v < |s.done|
  {
    s.(done := s.done[v := s.done[v] + 1], limbo := {w})
  }

  /** Leave the deepest vertex, handing its `low` to the one below it. */
  ghost function Leave(s: State): State
    requires s.path != [] && Top(s.path) < |s.low|
    requires |s.path| > 1 ==> s.path[|s.path| - 2] < |s.low|
  {
    var rest := s.path[..|s.path| - 1];
    s.(path := rest,
       low := if rest == [] then s.low
              else s.low[Top(rest) := Min(s.low[Top(rest)], s.low[Top(s.path)])])
  }

  ghost function Unstacked(onStack: seq<bool>, out: seq<nat>): seq<bool> {
    seq(|onStack|, v requires 0 <= v < |onStack| => onStack[v] && v !in out)
  }

  ghost function Assigned(comp: seq<nat>, out: seq<nat>, c: nat): seq<nat> {
    seq(|comp|, v requires 0 <= v < |comp| => if v in out then c else comp[v])
  }

  /** Give a component to everything stacked from position `p` on. */
  ghost function Emit(s: State, p: nat): State
    requires p <= |s.stack|
  {
    s.(onStack := Unstacked(s.onStack, s.stack[p..]), comp := Assigned(s.comp, s.stack[p..], s.ncomp),
       stack := s.stack[..p], ncomp := s.ncomp + 1)
  }

  // ------------------------------------------------ each transition keeps Inv

  /** The vertex about to be discovered: a root, or the callee just pushed. */
  ghost predicate Ready(g: Graph, index: seq<nat>, path: seq<nat>, limbo: set<nat>, v: nat)
    requires |index| == |g|
    requires forall k :: 0 <= k < |path| ==> path[k] < |g|
  {
    && v < |g| && index[v] == UNSEEN
    && if path == [] then limbo == {} else limbo == {v} && v in g[Top(path)]
  }

  lemma Bounds(index: seq<nat>, onStack: seq<bool>, order: seq<nat>, path: seq<nat>)
    requires |index| == |onStack| && Numbered(index, order) && PathOk(index, onStack, path)
    ensures |order| < UNSEEN
    ensures forall k :: 0 <= k < |path| ==> path[k] < |index|
  {}

  lemma DoneBounds(g: Graph, index: seq<nat>, path: seq<nat>, done: seq<nat>, limbo: set<nat>)
    requires |index| == |done| == |g| && Closed(g) && DoneOk(g, index, path, done, limbo)
    ensures forall v :: 0 <= v < |g| ==> done[v] <= |g[v]|
    ensures forall v :: 0 <= v < |g| && done[v] < |g[v]| ==> g[v][done[v]] < |g|
    ensures forall v :: 0 <= v < |g| && index[v] == UNSEEN ==> done[v] == 0
  {}

  lemma StackedSeen(index: seq<nat>, onStack: seq<bool>, stack: seq<nat>, v: nat)
    requires |index| == |onStack| && StackOk(index, onStack, stack) && v < |index|
    ensures onStack[v] ==> index[v] != UNSEEN
  {}

  lemma VisitKeeps(g: Graph, s: State, v: nat)
    requires Inv(g, s) && Ready(g, s.index, s.path, s.limbo, v) && |g| < UNSEEN
    ensures Inv(g, Visit(s, v))
  {
    hide Numbered, StackOk, PathOk, DoneOk, CompClosed, CompExact, UpOk, DownOk, LowSound, LowComplete;
    Bounds(s.index, s.onStack, s.order, s.path);
    VisitNumbered(s.index, s.order, v);
    VisitStack(s.index, s.onStack, s.stack, s.order, v);
    VisitPath(s.index, s.onStack, s.path, s.order, s.stack, v);
    VisitDone(g, s.index, s.path, s.done, s.limbo, v, |s.order|);
    VisitComp(g, s.index, s.onStack, s.comp, s.ncomp, |s.order|, v);
    VisitUp(g, s.index, s.onStack, s.path, s.stack, s.limbo, s.order, v);
    VisitDown(g, s.index, s.onStack, s.path, s.stack, v, |s.order|);
    VisitLowSound(g, s.index, s.onStack, s.order, s.stack, s.path, s.low, v);
    VisitLowComplete(g, s.index, s.onStack, s.order, s.stack, s.path, s.done, s.low, s.limbo, v);
  }

  lemma VisitNumbered(index: seq<nat>, order: seq<nat>, v: nat)
    requires Numbered(index, order) && v < |index| < UNSEEN && index[v] == UNSEEN
    ensures Numbered(index[v := |order|], order + [v])
  {
    DistinctBound(order + [v], |index|);
  }

  lemma VisitStack(index: seq<nat>, onStack: seq<bool>, stack: seq<nat>, order: seq<nat>, v: nat)
    requires |index| == |onStack| && Numbered(index, order) && StackOk(index, onStack, stack)
    requires v < |index| && index[v] == UNSEEN
    ensures StackOk(index[v := |order|], onStack[v := true], stack + [v])
  {
    assert (stack + [v])[|stack|] == v;
  }

  lemma VisitPath(index: seq<nat>, onStack: seq<bool>, path: seq<nat>, order: seq<nat>, stack: seq<nat>, v: nat)
    requires |index| == |onStack| && Numbered(index, order) && StackOk(index, onStack, stack)
    requires PathOk(index, onStack, path) && v < |index| && index[v] == UNSEEN
    ensures PathOk(index[v := |order|], onStack[v := true], path + [v])
  {}

  lemma VisitDone(g: Graph, index: seq<nat>, path: seq<nat>, done: seq<nat>, limbo: set<nat>, v: nat, m: nat)
    requires |index| == |done| == |g| && Closed(g) && DoneOk(g, index, path, done, limbo)
    requires forall k :: 0 <= k < |path| ==> path[k] < |g|
    requires Ready(g, index, path, limbo, v) && m < UNSEEN
    ensures DoneOk(g, index[v := m], path + [v], done, {})
  {}

  lemma VisitComp(g: Graph, index: seq<nat>, onStack: seq<bool>, comp: seq<nat>, ncomp: nat, m: nat, v: nat)
    requires |index| == |onStack| == |comp| == |g| && Closed(g)
    requires CompClosed(g, index, onStack, comp, ncomp) && CompExact(g, index, onStack, comp)
    requires v < |g| && index[v] == UNSEEN && m < UNSEEN
    ensures CompClosed(g, index[v := m], onStack[v := true], comp, ncomp)
    ensures CompExact(g, index[v := m], onStack[v := true], comp)
  {
    assert forall u :: 0 <= u < |g| ==>
      (Settled(index[v := m], onStack[v := true], u) <==> Settled(index, onStack, u));
  }

  lemma VisitUp(g: Graph, index: seq<nat>, onStack: seq<bool>, path: seq<nat>, stack: seq<nat>,
                limbo: set<nat>, order: seq<nat>, v: nat)
    requires |index| == |onStack| == |g| && PathOk(index, onStack, path) && UpOk(g, index, onStack, path)
    requires Ready(g, index, path, limbo, v) && StackOk(index, onStack, stack) && Numbered(index, order)
    requires PathOk(index[v := |order|], onStack[v := true], path + [v])
    ensures UpOk(g, index[v := |order|], onStack[v := true], path + [v])
  {
    ReachSelf(g, v);
    forall i | 0 <= i < |path|
      ensures Reach(g, path[i], v)
    {
      ReachEdge(g, Top(path), v);
      ReachTrans(g, path[i], Top(path), v);
    }
  }

  lemma VisitAnchored(g: Graph, index: seq<nat>, onStack: seq<bool>, path: seq<nat>,
                      index': seq<nat>, onStack': seq<bool>, v: nat, y: nat)
    requires |index| == |onStack| == |index'| == |onStack'| && PathOk(index, onStack, path) && y < |index|
    requires PathOk(index', onStack', path + [v])
    requires forall u :: 0 <= u < |index| && (u == y || u in path) ==> index'[u] == index[u]
    requires Anchored(g, index, onStack, path, y)
    ensures Anchored(g, index', onStack', path + [v], y)
  {
    hide Reach;
    var i :| 0 <= i < |path| && index[path[i]] <= index[y] && Reach(g, y, path[i]);
    assert (path + [v])[i] == path[i];
  }

  lemma VisitDown(g: Graph, index: seq<nat>, onStack: seq<bool>, path: seq<nat>, stack: seq<nat>, v: nat, m: nat)
    requires |index| == |onStack| == |g| && PathOk(index, onStack, path) && DownOk(g, index, onStack, path)
    requires v < |g| && index[v] == UNSEEN && StackOk(index, onStack, stack)
    requires PathOk(index[v := m], onStack[v := true], path + [v])
    ensures DownOk(g, index[v := m], onStack[v := true], path + [v])
  {
    var index', onStack', path' := index[v := m], onStack[v := true], path + [v];
    assert forall u :: 0 <= u < |index| && onStack[u] ==> index'[u] == index[u];
    forall y | 0 <= y < |g| && onStack'[y]
      ensures Anchored(g, index', onStack', path', y)
    {
      if y == v {
        ReachSelf(g, v);
        assert path'[|path|] == v;
      } else {
        VisitAnchored(g, index, onStack, path, index', onStack', v, y);
      }
    }
  }

  lemma VisitLowSound(g: Graph, index: seq<nat>, onStack: seq<bool>, order: seq<nat>, stack: seq<nat>,
                      path: seq<nat>, low: seq<nat>, v: nat)
    requires |index| == |onStack| == |low| == |g| && Numbered(index, order) && PathOk(index, onStack, path)
    requires LowSound(g, index, onStack, order, path, low) && StackOk(index, onStack, stack)
    requires v < |g| && index[v] == UNSEEN
    requires Numbered(index[v := |order|], order + [v])
    requires PathOk(index[v := |order|], onStack[v := true], path + [v])
    ensures LowSound(g, index[v := |order|], onStack[v := true], order + [v], path + [v], low[v := |order|])
  {
    ReachSelf(g, v);
  }

  lemma VisitLowComplete(g: Graph, index: seq<nat>, onStack: seq<bool>, order: seq<nat>, stack: seq<nat>,
                         path: seq<nat>, done: seq<nat>, low: seq<nat>, limbo: set<nat>, v: nat)
    requires |index| == |onStack| == |low| == |done| == |g| && Closed(g) && Numbered(index, order)
    requires PathOk(index, onStack, path) && DoneOk(g, index, path, done, limbo)
    requires StackOk(index, onStack, stack) && v < |g| && index[v] == UNSEEN
    requires LowSound(g, index, onStack, order, path, low) && LowComplete(g, index, onStack, path, done, low)
    requires PathOk(index[v := |order|], onStack[v := true], path + [v])
    ensures LowComplete(g, index[v := |order|], onStack[v := true], path + [v], done, low[v := |order|])
  {
    var index', onStack', path', low' := index[v := |order|], onStack[v := true], path + [v], low[v := |order|];
    forall i, u, j | 0 <= i < |path'| && 0 <= u < |g| && onStack'[u] && Segment(index', path', i, u) &&
                     0 <= j < done[u] && onStack'[g[u][j]]
      ensures low'[path'[i]] <= index'[g[u][j]]
    {
      if i < |path| {
        assert path'[i] == path[i] && path'[|path|] == v;
        if g[u][j] != v {
          assert i + 1 < |path| ==> path'[i + 1] == path[i + 1];
          assert Segment(index, path, i, u);
        }
      }
    }
  }

  /** Everything about following one call but the `low` of its caller. */
  lemma FollowDone(g: Graph, index: seq<nat>, path: seq<nat>, done: seq<nat>, v: nat, limbo: set<nat>)
    requires |index| == |done| == |g| && Closed(g) && DoneOk(g, index, path, done, {})
    requires v in path && v < |g| && index[v] != UNSEEN && done[v] < |g[v]|
    requires index[g[v][done[v]]] != UNSEEN || g[v][done[v]] in limbo
    ensures DoneOk(g, index, path, done[v := done[v] + 1], limbo)
  {}

  /** What the deepest vertex of `path` satisfies. */
  lemma TopFacts(index: seq<nat>, onStack: seq<bool>, stack: seq<nat>, path: seq<nat>)
    requires |index| == |onStack| && StackOk(index, onStack, stack) && PathOk(index, onStack, path) && path != []
    ensures var v := Top(path); v < |index| && onStack[v] && index[v] != UNSEEN && v in path
    ensures forall i :: 0 <= i < |path| ==> path[i] < |index|
    ensures forall i :: 0 <= i < |path| && path[i] == Top(path) ==> i == |path| - 1
    ensures forall i :: 0 <= i < |path| ==> index[path[i]] <= index[Top(path)]
  {}

  lemma FollowSeenKeeps(g: Graph, s: State, v: nat)
    requires Inv(g, s) && s.path != [] && s.limbo == {} && v == Top(s.path)
    requires s.done[v] < |g[v]| && s.index[g[v][s.done[v]]] != UNSEEN
    ensures Inv(g, FollowSeen(s, v, g[v][s.done[v]]))
  {
    hide Numbered, StackOk, PathOk, DoneOk, CompClosed, CompExact, UpOk, DownOk, LowSound, LowComplete;
    TopFacts(s.index, s.onStack, s.stack, s.path);
    DoneBounds(g, s.index, s.path, s.done, s.limbo);
    var w := g[v][s.done[v]];
    FollowDone(g, s.index, s.path, s.done, v, {});
    FollowLowSound(g, s.index, s.onStack, s.order, s.path, s.low, v, g[v][s.done[v]]);
    FollowLowComplete(g, s.index, s.onStack, s.path, s.done, s.low, v);
  }

  lemma FollowLowSound(g: Graph, index: seq<nat>, onStack: seq<bool>, order: seq<nat>, path: seq<nat>,
                       low: seq<nat>, v: nat, w: nat)
    requires |index| == |onStack| == |low| == |g| && Numbered(index, order) && PathOk(index, onStack, path)
    requires LowSound(g, index, onStack, order, path, low)
    requires v < |g| && w < |g| && w in g[v] && index[w] != UNSEEN
    ensures var low' := if onStack[w] then low[v := Min(low[v], index[w])] else low;
            LowSound(g, index, onStack, order, path, low')
  {
    ReachEdge(g, v, w);
  }

  lemma FollowLowComplete(g: Graph, index: seq<nat>, onStack: seq<bool>, path: seq<nat>, done: seq<nat>,
                          low: seq<nat>, v: nat)
    requires |index| == |onStack| == |low| == |done| == |g| && Closed(g) && PathOk(index, onStack, path)
    requires forall v :: 0 <= v < |g| ==> done[v] <= |g[v]|
    requires LowComplete(g, index, onStack, path, done, low)
    requires path != [] && v == Top(path) && done[v] < |g[v]|
    ensures var w := g[v][done[v]];
            var low' := if onStack[w] then low[v := Min(low[v], index[w])] else low;
            LowComplete(g, index, onStack, path, done[v := done[v] + 1], low')
  {
    var w := g[v][done[v]];
    var low' := if onStack[w] then low[v := Min(low[v], index[w])] else low;
    var done' := done[v := done[v] + 1];
    forall i, u, j | 0 <= i < |path| && 0 <= u < |g| && onStack[u] && Segment(index, path, i, u) &&
                     0 <= j < done'[u] && onStack[g[u][j]]
      ensures low'[path[i]] <= index[g[u][j]]
    {
      if u == v && j == done[v] {
        assert i == |path| - 1;
      }
    }
  }

  lemma FollowNewKeeps(g: Graph, s: State, v: nat)
    requires Inv(g, s) && s.path != [] && s.limbo == {} && v == Top(s.path)
    requires s.done[v] < |g[v]| && s.index[g[v][s.done[v]]] == UNSEEN
    ensures Inv(g, FollowNew(s, v, g[v][s.done[v]]))
    ensures Ready(g, s.index, s.path, {g[v][s.done[v]]}, g[v][s.done[v]])
  {
    hide Numbered, StackOk, PathOk, DoneOk, CompClosed, CompExact, UpOk, DownOk, LowSound, LowComplete;
    TopFacts(s.index, s.onStack, s.stack, s.path);
    DoneBounds(g, s.index, s.path, s.done, s.limbo);
    var w := g[v][s.done[v]];
    StackedSeen(s.index, s.onStack, s.stack, w);
    FollowDone(g, s.index, s.path, s.done, v, {w});
    FollowLowComplete(g, s.index, s.onStack, s.path, s.done, s.low, v);
  }

  /** Leaving a vertex that is not the first of its component. */
  lemma LeaveKeeps(g: Graph, s: State)
    requires Inv(g, s) && s.path != [] && s.limbo == {}
    requires Top(s.path) < |g| && s.done[Top(s.path)] == |g[Top(s.path)]|
    requires s.low[Top(s.path)] != s.index[Top(s.path)]
    ensures |s.path| > 1 && s.path[|s.path| - 2] < |g|
    ensures Inv(g, Leave(s))
  {
    hide Numbered, StackOk, PathOk, DoneOk, CompClosed, CompExact, UpOk, DownOk, LowSound, LowComplete;
    Bounds(s.index, s.onStack, s.order, s.path);
    DoneBounds(g, s.index, s.path, s.done, s.limbo);
    LeavePath(s.index, s.onStack, s.path);
    LeaveDone(g, s.index, s.onStack, s.path, s.done);
    LeaveUp(g, s.index, s.onStack, s.path);
    LeaveDown(g, s.index, s.onStack, s.order, s.path, s.low);
    LeaveLowSound(g, s.index, s.onStack, s.order, s.stack, s.path, s.low);
    LeaveLowComplete(g, s.index, s.onStack, s.path, s.done, s.low);
  }

  lemma LeavePath(index: seq<nat>, onStack: seq<bool>, path: seq<nat>)
    requires |index| == |onStack| && PathOk(index, onStack, path) && path != []
    ensures PathOk(index, onStack, path[..|path| - 1])
  {}

  lemma LeaveDone(g: Graph, index: seq<nat>, onStack: seq<bool>, path: seq<nat>, done: seq<nat>)
    requires |index| == |done| == |onStack| == |g| && Closed(g) && DoneOk(g, index, path, done, {})
    requires PathOk(index, onStack, path)
    requires path != [] && done[Top(path)] == |g[Top(path)]|
    ensures DoneOk(g, index, path[..|path| - 1], done, {})
  {
    assert path == path[..|path| - 1] + [Top(path)];
  }

  lemma LeaveUp(g: Graph, index: seq<nat>, onStack: seq<bool>, path: seq<nat>)
    requires |index| == |onStack| && PathOk(index, onStack, path) && UpOk(g, index, onStack, path) && path != []
    requires PathOk(index, onStack, path[..|path| - 1])
    ensures UpOk(g, index, onStack, path[..|path| - 1])
  {}

  /** An anchor that is not the vertex left stays an anchor. */
  lemma AnchorBelow(g: Graph, index: seq<nat>, onStack: seq<bool>, path: seq<nat>, y: nat)
    requires y < |index| == |onStack| && PathOk(index, onStack, path) && path != []
    requires PathOk(index, onStack, path[..|path| - 1])
    requires Anchored(g, index, onStack, path, y) && index[y] < index[Top(path)]
    ensures Anchored(g, index, onStack, path[..|path| - 1], y)
  {
    hide Reach;
    var i :| 0 <= i < |path| && index[path[i]] <= index[y] && Reach(g, y, path[i]);
    assert path[..|path| - 1][i] == path[i];
  }

  /** The anchor is below the vertex left, or is that vertex. */
  lemma AnchorSplit(g: Graph, index: seq<nat>, onStack: seq<bool>, path: seq<nat>, y: nat)
    requires y < |index| == |onStack| && PathOk(index, onStack, path) && path != []
    requires PathOk(index, onStack, path[..|path| - 1]) && Anchored(g, index, onStack, path, y)
    ensures Anchored(g, index, onStack, path[..|path| - 1], y)
         || (Top(path) < |index| && index[Top(path)] <= index[y] && Reach(g, y, Top(path)))
  {
    hide Reach;
    var i :| 0 <= i < |path| && index[path[i]] <= index[y] && Reach(g, y, path[i]);
    if i < |path| - 1 {
      assert path[..|path| - 1][i] == path[i];
    }
  }

  lemma AnchorReach(g: Graph, index: seq<nat>, onStack: seq<bool>, path: seq<nat>, y: nat, x: nat)
    requires x < |index| == |onStack| && y < |index| && PathOk(index, onStack, path)
    requires Reach(g, y, x) && index[x] <= index[y] && Anchored(g, index, onStack, path, x)
    ensures Anchored(g, index, onStack, path, y)
  {
    hide Reach;
    var i :| 0 <= i < |path| && index[path[i]] <= index[x] && Reach(g, x, path[i]);
    ReachTrans(g, y, x, path[i]);
  }

  /** Where the vertex left anchored a stacked vertex, the one its `low` names
      leads on to a deeper anchor. */
  lemma LeaveDown(g: Graph, index: seq<nat>, onStack: seq<bool>, order: seq<nat>, path: seq<nat>, low: seq<nat>)
    requires |index| == |onStack| == |low| == |g| && Numbered(index, order) && PathOk(index, onStack, path)
    requires DownOk(g, index, onStack, path) && LowSound(g, index, onStack, order, path, low)
    requires path != [] && Top(path) < |g| && low[Top(path)] != index[Top(path)]
    requires PathOk(index, onStack, path[..|path| - 1])
    ensures DownOk(g, index, onStack, path[..|path| - 1])
    ensures |path| > 1
  {
    hide Reach, Anchored;
    var v, rest := Top(path), path[..|path| - 1];
    LowIsDeeper(g, index, onStack, order, path, low);
    var w := order[low[v]];
    forall y | 0 <= y < |index| && onStack[y]
      ensures Anchored(g, index, onStack, rest, y)
    {
      AnchorOf(g, index, onStack, path, y, v, w);
    }
    AnchoredSome(g, index, onStack, rest, v);
  }

  lemma AnchoredSome(g: Graph, index: seq<nat>, onStack: seq<bool>, path: seq<nat>, y: nat)
    requires y < |index| == |onStack| && PathOk(index, onStack, path) && Anchored(g, index, onStack, path, y)
    ensures path != []
  {}

  lemma LowIsDeeper(g: Graph, index: seq<nat>, onStack: seq<bool>, order: seq<nat>, path: seq<nat>, low: seq<nat>)
    requires |index| == |onStack| == |low| == |g| && Numbered(index, order) && PathOk(index, onStack, path)
    requires LowSound(g, index, onStack, order, path, low)
    requires path != [] && Top(path) < |g| && low[Top(path)] != index[Top(path)]
    ensures low[Top(path)] < |order|
    ensures var w := order[low[Top(path)]];
            w < |g| && onStack[w] && index[w] < index[Top(path)] && Reach(g, Top(path), w)
  {}

  lemma AnchorOf(g: Graph, index: seq<nat>, onStack: seq<bool>, path: seq<nat>, y: nat, v: nat, w: nat)
    requires |index| == |onStack| == |g| && PathOk(index, onStack, path) && DownOk(g, index, onStack, path)
    requires path != [] && v == Top(path) && y < |g| && onStack[y]
    requires w < |g| && onStack[w] && index[w] < index[v] && Reach(g, v, w)
    requires PathOk(index, onStack, path[..|path| - 1])
    ensures Anchored(g, index, onStack, path[..|path| - 1], y)
  {
    hide Reach;
    assert Anchored(g, index, onStack, path, w) && Anchored(g, index, onStack, path, y);
    hide Anchored, DownOk, PathOk;
    AnchorBelow(g, index, onStack, path, w);
    AnchorSplit(g, index, onStack, path, y);
    if !Anchored(g, index, onStack, path[..|path| - 1], y) {
      ReachTrans(g, y, v, w);
      AnchorReach(g, index, onStack, path[..|path| - 1], y, w);
    }
  }

  lemma LeaveLowSound(g: Graph, index: seq<nat>, onStack: seq<bool>, order: seq<nat>, stack: seq<nat>,
                      path: seq<nat>, low: seq<nat>)
    requires |index| == |onStack| == |low| == |g| && Numbered(index, order) && PathOk(index, onStack, path)
    requires LowSound(g, index, onStack, order, path, low) && UpOk(g, index, onStack, path)
    requires |path| > 1 && Top(path) < |g| && path[|path| - 2] < |g|
    requires PathOk(index, onStack, path[..|path| - 1])
    ensures var p, v := path[|path| - 2], Top(path);
            LowSound(g, index, onStack, order, path[..|path| - 1], low[p := Min(low[p], low[v])])
  {
    var p, v, rest := path[|path| - 2], Top(path), path[..|path| - 1];
    var low' := low[p := Min(low[p], low[v])];
    assert Reach(g, p, v);
    ReachTrans(g, p, v, order[low[v]]);
    forall i | 0 <= i < |rest|
      ensures low'[rest[i]] <= index[rest[i]] && low'[rest[i]] < |order|
      ensures onStack[order[low'[rest[i]]]] && Reach(g, rest[i], order[low'[rest[i]]])
    {
      assert rest[i] == path[i];
    }
  }

  lemma LeaveLowComplete(g: Graph, index: seq<nat>, onStack: seq<bool>, path: seq<nat>, done: seq<nat>, low: seq<nat>)
    requires |index| == |onStack| == |low| == |done| == |g| && Closed(g) && PathOk(index, onStack, path)
    requires forall v :: 0 <= v < |g| ==> done[v] <= |g[v]|
    requires LowComplete(g, index, onStack, path, done, low)
    requires |path| > 1 && Top(path) < |g| && path[|path| - 2] < |g|
    requires PathOk(index, onStack, path[..|path| - 1])
    ensures var p, v := path[|path| - 2], Top(path);
            LowComplete(g, index, onStack, path[..|path| - 1], done, low[p := Min(low[p], low[v])])
  {
    var p, v, rest := path[|path| - 2], Top(path), path[..|path| - 1];
    var low' := low[p := Min(low[p], low[v])];
    forall i, u, j | 0 <= i < |rest| && 0 <= u < |g| && onStack[u] && Segment(index, rest, i, u) &&
                     0 <= j < done[u] && onStack[g[u][j]]
      ensures low'[rest[i]] <= index[g[u][j]]
    {
      assert rest[i] == path[i];
      if i + 1 < |rest| {
        assert rest[i + 1] == path[i + 1];
        assert Segment(index, path, i, u);
      } else if index[u] < index[v] {
        assert Segment(index, path, i, u);
      } else {
        assert Segment(index, path, |path| - 1, u);
      }
    }
  }

  // ------------------------------------------------------------- components

  /** Leaving the first vertex of a component, which stands at `p` of the stack:
      everything from there on is one component. */
  lemma EmitKeeps(g: Graph, s: State, p: nat)
    requires Inv(g, s) && s.path != [] && s.limbo == {}
    requires Top(s.path) < |g| && s.done[Top(s.path)] == |g[Top(s.path)]|
    requires s.low[Top(s.path)] == s.index[Top(s.path)]
    requires p < |s.stack| && s.stack[p] == Top(s.path)
    ensures |s.path| > 1 ==> s.path[|s.path| - 2] < |g|
    ensures Inv(g, Emit(Leave(s), p))
  {
    hide Numbered, StackOk, PathOk, DoneOk, CompClosed, CompExact, UpOk, DownOk, LowSound, LowComplete;
    Bounds(s.index, s.onStack, s.order, s.path);
    DoneBounds(g, s.index, s.path, s.done, s.limbo);
    LeavePath(s.index, s.onStack, s.path);
    LeaveDone(g, s.index, s.onStack, s.path, s.done);
    var rest, e := s.path[..|s.path| - 1], Emit(Leave(s), p);
    RootLow(g, s.index, s.onStack, s.order, s.path, s.low);
    assert Leave(s).low == s.low by {
      if rest != [] {
        assert rest[|rest| - 1] == s.path[|s.path| - 2];
        assert s.low[Top(rest) := s.low[Top(rest)]] == s.low;
      }
    }
    Split(s.index, s.onStack, s.stack, p, e.onStack);
    EmitPath(s.index, s.onStack, s.path, e.onStack);
    OneComponent(g, s.index, s.onStack, s.path);
    NoEdgeLeaves(g, s.index, s.onStack, s.stack, s.path, s.done, s.low, s.comp, s.ncomp);
    EmitComp(g, s.index, s.onStack, s.stack, s.comp, s.ncomp, Top(s.path), e.onStack, e.comp);
    EmitUp(g, s.index, s.onStack, s.path, e.onStack);
    EmitDown(g, s.index, s.onStack, s.path, e.onStack);
    EmitLowSound(g, s.index, s.onStack, s.order, s.path, s.low, e.onStack);
    EmitLowComplete(g, s.index, s.onStack, s.path, s.done, s.low, e.onStack);
  }

  /** Only vertices numbered below `m` stay on the stack. */
  ghost predicate Cut(index: seq<nat>, onStack: seq<bool>, m: nat, onStack': seq<bool>)
    requires |index| == |onStack|
  {
    && |onStack'| == |onStack|
    && forall u :: 0 <= u < |index| ==> (onStack'[u] <==> onStack[u] && index[u] < m)
  }

  lemma Split(index: seq<nat>, onStack: seq<bool>, stack: seq<nat>, p: nat, onStack': seq<bool>)
    requires |index| == |onStack| == |onStack'| && StackOk(index, onStack, stack) && p < |stack| && stack[p] < |index|
    requires forall u :: 0 <= u < |index| ==> (onStack'[u] <==> onStack[u] && u !in stack[p..])
    ensures Cut(index, onStack, index[stack[p]], onStack')
    ensures forall u :: 0 <= u < |index| ==> (u in stack[p..] <==> onStack[u] && index[stack[p]] <= index[u])
    ensures StackOk(index, onStack', stack[..p])
  {
    forall u | 0 <= u < |index|
      ensures u in stack[p..] <==> onStack[u] && index[stack[p]] <= index[u]
    {
      if u in stack[p..] {
        var k :| 0 <= k < |stack[p..]| && stack[p..][k] == u;
        assert stack[p + k] == u;
      }
      if onStack[u] && index[stack[p]] <= index[u] {
        var k :| 0 <= k < |stack| && stack[k] == u;
        assert p <= k;
        assert stack[p..][k - p] == u;
      }
    }
    forall u | 0 <= u < |index| && onStack'[u]
      ensures u in stack[..p]
    {
      var k :| 0 <= k < |stack| && stack[k] == u;
      assert k < p;
      assert stack[..p][k] == u;
    }
  }

  lemma EmitPath(index: seq<nat>, onStack: seq<bool>, path: seq<nat>, onStack': seq<bool>)
    requires |index| == |onStack| && PathOk(index, onStack, path) && path != [] && Top(path) < |index|
    requires Cut(index, onStack, index[Top(path)], onStack')
    ensures PathOk(index, onStack', path[..|path| - 1])
  {}

  lemma RootLow(g: Graph, index: seq<nat>, onStack: seq<bool>, order: seq<nat>, path: seq<nat>, low: seq<nat>)
    requires |index| == |onStack| == |low| == |g| && Numbered(index, order) && PathOk(index, onStack, path)
    requires LowSound(g, index, onStack, order, path, low)
    requires path != [] && Top(path) < |g| && low[Top(path)] == index[Top(path)]
    ensures forall i :: 0 <= i < |path| - 1 ==> path[i] < |g| && low[path[i]] <= low[Top(path)]
  {}

  lemma BackToTop(g: Graph, index: seq<nat>, onStack: seq<bool>, path: seq<nat>, u: nat)
    requires |index| == |onStack| == |g| && PathOk(index, onStack, path) && path != [] && Top(path) < |g|
    requires UpOk(g, index, onStack, path) && u < |g| && Anchored(g, index, onStack, path, u)
    ensures Reach(g, u, Top(path))
  {
    hide Reach;
    var i :| 0 <= i < |path| && index[path[i]] <= index[u] && Reach(g, u, path[i]);
    ReachTrans(g, u, path[i], Top(path));
  }

  /** The vertices from the top of the path on reach one another. */
  lemma OneComponent(g: Graph, index: seq<nat>, onStack: seq<bool>, path: seq<nat>)
    requires |index| == |onStack| == |g| && PathOk(index, onStack, path) && path != [] && Top(path) < |g|
    requires UpOk(g, index, onStack, path) && DownOk(g, index, onStack, path)
    ensures forall u :: 0 <= u < |g| && onStack[u] && index[Top(path)] <= index[u] ==> Mutual(g, Top(path), u)
  {
    hide Reach;
    forall u | 0 <= u < |g| && onStack[u] && index[Top(path)] <= index[u]
      ensures Mutual(g, Top(path), u)
    {
      assert Anchored(g, index, onStack, path, u);
      BackToTop(g, index, onStack, path, u);
    }
  }

  /** Every edge out of those vertices stays among them or goes to a component
      already given out. */
  lemma NoEdgeLeaves(g: Graph, index: seq<nat>, onStack: seq<bool>, stack: seq<nat>, path: seq<nat>, done: seq<nat>,
                     low: seq<nat>, comp: seq<nat>, ncomp: nat)
    requires |index| == |onStack| == |low| == |done| == |comp| == |g| && Closed(g) && PathOk(index, onStack, path)
    requires DoneOk(g, index, path, done, {}) && StackOk(index, onStack, stack)
    requires forall v :: 0 <= v < |g| ==> done[v] <= |g[v]|
    requires LowComplete(g, index, onStack, path, done, low)
    requires path != [] && Top(path) < |g| && low[Top(path)] == index[Top(path)]
    requires done[Top(path)] == |g[Top(path)]|
    ensures forall u, j :: 0 <= u < |g| && onStack[u] && index[Top(path)] <= index[u] && 0 <= j < |g[u]| ==>
              Settled(index, onStack, g[u][j]) || (onStack[g[u][j]] && index[Top(path)] <= index[g[u][j]])
  {
    var v := Top(path);
    forall u, j | 0 <= u < |g| && onStack[u] && index[v] <= index[u] && 0 <= j < |g[u]|
      ensures Settled(index, onStack, g[u][j]) || (onStack[g[u][j]] && index[v] <= index[g[u][j]])
    {
      assert u in path ==> u == v;
      assert done[u] == |g[u]|;
      assert Segment(index, path, |path| - 1, u);
    }
  }

  lemma EmitComp(g: Graph, index: seq<nat>, onStack: seq<bool>, stack: seq<nat>, comp: seq<nat>, ncomp: nat, v: nat,
                 onStack': seq<bool>, comp': seq<nat>)
    requires |index| == |onStack| == |comp| == |comp'| == |g| && Closed(g) && v < |g|
    requires StackOk(index, onStack, stack)
    requires CompClosed(g, index, onStack, comp, ncomp) && CompExact(g, index, onStack, comp)
    requires Cut(index, onStack, index[v], onStack')
    requires forall u :: 0 <= u < |g| ==>
               comp'[u] == if onStack[u] && index[v] <= index[u] then ncomp else comp[u]
    requires forall u :: 0 <= u < |g| && onStack[u] && index[v] <= index[u] ==> Mutual(g, v, u)
    requires forall u, j :: 0 <= u < |g| && onStack[u] && index[v] <= index[u] && 0 <= j < |g[u]| ==>
               Settled(index, onStack, g[u][j]) || (onStack[g[u][j]] && index[v] <= index[g[u][j]])
    ensures CompClosed(g, index, onStack', comp', ncomp + 1)
    ensures CompExact(g, index, onStack', comp')
  {
    hide Reach;
    var given := set u: nat | u < |g| && Settled(index, onStack, u);
    forall a, b | 0 <= a < |g| && 0 <= b < |g| && Settled(index, onStack', a) && Settled(index, onStack', b)
      ensures comp'[a] == comp'[b] <==> Mutual(g, a, b)
    {
      if onStack[a] && onStack[b] {
        ReachTrans(g, a, v, b);
        ReachTrans(g, b, v, a);
      } else if onStack[a] {
        assert b in given;
        if Reach(g, b, a) { ReachStays(g, given, b, a); }
      } else if onStack[b] {
        assert a in given;
        if Reach(g, a, b) { ReachStays(g, given, a, b); }
      }
    }
  }

  lemma EmitUp(g: Graph, index: seq<nat>, onStack: seq<bool>, path: seq<nat>, onStack': seq<bool>)
    requires |index| == |onStack| == |onStack'| && PathOk(index, onStack, path) && path != [] && Top(path) < |index|
    requires Cut(index, onStack, index[Top(path)], onStack') && UpOk(g, index, onStack, path)
    requires PathOk(index, onStack', path[..|path| - 1])
    ensures UpOk(g, index, onStack', path[..|path| - 1])
  {}

  lemma EmitDown(g: Graph, index: seq<nat>, onStack: seq<bool>, path: seq<nat>, onStack': seq<bool>)
    requires |index| == |onStack| == |onStack'| && PathOk(index, onStack, path) && path != [] && Top(path) < |index|
    requires Cut(index, onStack, index[Top(path)], onStack') && DownOk(g, index, onStack, path)
    requires PathOk(index, onStack, path[..|path| - 1]) && PathOk(index, onStack', path[..|path| - 1])
    ensures DownOk(g, index, onStack', path[..|path| - 1])
  {
    var rest := path[..|path| - 1];
    forall y | 0 <= y < |index| && onStack'[y]
      ensures Anchored(g, index, onStack', rest, y)
    {
      assert Anchored(g, index, onStack, path, y);
      AnchorBelow(g, index, onStack, path, y);
      AnchorFrame(g, index, onStack, onStack', rest, y);
    }
  }

  lemma AnchorFrame(g: Graph, index: seq<nat>, onStack: seq<bool>, onStack': seq<bool>, path: seq<nat>, y: nat)
    requires y < |index| == |onStack| == |onStack'|
    requires PathOk(index, onStack, path) && PathOk(index, onStack', path) && Anchored(g, index, onStack, path, y)
    ensures Anchored(g, index, onStack', path, y)
  {}

  lemma EmitLowSound(g: Graph, index: seq<nat>, onStack: seq<bool>, order: seq<nat>, path: seq<nat>, low: seq<nat>,
                     onStack': seq<bool>)
    requires |index| == |onStack| == |low| == |onStack'| && Numbered(index, order) && PathOk(index, onStack, path)
    requires path != [] && Top(path) < |index| && Cut(index, onStack, index[Top(path)], onStack')
    requires LowSound(g, index, onStack, order, path, low) && PathOk(index, onStack', path[..|path| - 1])
    ensures LowSound(g, index, onStack', order, path[..|path| - 1], low)
  {}

  lemma EmitLowComplete(g: Graph, index: seq<nat>, onStack: seq<bool>, path: seq<nat>, done: seq<nat>, low: seq<nat>,
                        onStack': seq<bool>)
    requires |index| == |onStack| == |low| == |done| == |g| == |onStack'| && Closed(g) && PathOk(index, onStack, path)
    requires forall v :: 0 <= v < |g| ==> done[v] <= |g[v]|
    requires LowComplete(g, index, onStack, path, done, low)
    requires path != [] && Top(path) < |index| && Cut(index, onStack, index[Top(path)], onStack')
    requires PathOk(index, onStack', path[..|path| - 1])
    ensures LowComplete(g, index, onStack', path[..|path| - 1], done, low)
  {
    var rest := path[..|path| - 1];
    forall i, u, j | 0 <= i < |rest| && 0 <= u < |g| && onStack'[u] && Segment(index, rest, i, u) &&
                     0 <= j < done[u] && onStack'[g[u][j]]
      ensures low[rest[i]] <= index[g[u][j]]
    {
      assert rest[i] == path[i] && (i + 1 < |rest| ==> rest[i + 1] == path[i + 1]);
      assert Segment(index, path, i, u);
    }
  }

  // ------------------------------------------------------------- the loop

  /** The calls not followed yet. */
  ghost function Remaining(g: Graph, done: seq<nat>): nat
    requires |done| <= |g| && forall v :: 0 <= v < |done| ==> done[v] <= |g[v]|
  {
    if done == [] then 0
    else var last := |done| - 1; Remaining(g, done[..last]) + (|g[last]| - done[last])
  }

  lemma {:induction false} RemainingDrops(g: Graph, done: seq<nat>, v: nat)
    requires |done| <= |g| && forall u :: 0 <= u < |done| ==> done[u] <= |g[u]|
    requires v < |done| && done[v] < |g[v]|
    ensures Remaining(g, done[v := done[v] + 1]) == Remaining(g, done) - 1
  {
    var last := |done| - 1;
    if v < last {
      RemainingDrops(g, done[..last], v);
      assert done[v := done[v] + 1][..last] == done[..last][v := done[v] + 1];
    } else {
      assert done[v := done[v] + 1][..last] == done[..last];
    }
  }

  lemma {:induction false} RemainingNone(g: Graph, done: seq<nat>)
    requires |done| <= |g| && forall u :: 0 <= u < |done| ==> done[u] == |g[u]|
    ensures Remaining(g, done) == 0
  {
    if done != [] {
      RemainingNone(g, done[..|done| - 1]);
    }
  }

  ghost function RemainingIn(g: Graph, s: State): nat
    requires Inv(g, s)
  {
    DoneBounds(g, s.index, s.path, s.done, s.limbo);
    Remaining(g, s.done)
  }

  /** Calls followed plus vertices finished is this many short of all of them. */
  ghost function Left(g: Graph, s: State): int
    requires Inv(g, s)
  {
    RemainingIn(g, s) + |s.path| - |s.order|
  }

  /** All the calls of the program. */
  ghost function Calls(g: Graph): nat {
    Remaining(g, seq(|g|, _ => 0))
  }

  ghost function Start(n: nat): State {
    State(seq(n, _ => UNSEEN), seq(n, _ => 0), seq(n, _ => false), seq(n, _ => UNSEEN), 0, [], [], [],
          seq(n, _ => 0), {})
  }

  lemma StartHolds(g: Graph)
    requires Closed(g)
    ensures Inv(g, Start(|g|))
  {}

  /** The work stack is the path, with the pending vertex on top if there is one. */
  ghost predicate WorkOk(g: Graph, index: seq<nat>, path: seq<nat>, done: seq<nat>, limbo: set<nat>,
                         work: seq<(nat, nat)>)
    requires |index| == |done| == |g|
    requires forall i :: 0 <= i < |path| ==> path[i] < |g|
  {
    && |path| <= |work| <= |path| + 1
    && (forall i :: 0 <= i < |path| ==> work[i] == (path[i], done[path[i]]))
    && (if |work| == |path| then limbo == {}
        else work[|path|].1 == 0 && Ready(g, index, path, limbo, work[|path|].0))
  }

  ghost predicate InvWork(g: Graph, s: State, work: seq<(nat, nat)>) {
    && Inv(g, s)
    && (forall i :: 0 <= i < |s.path| ==> s.path[i] < |g|)
    && WorkOk(g, s.index, s.path, s.done, s.limbo, work)
  }

  lemma WorkTop(g: Graph, s: State, work: seq<(nat, nat)>)
    requires InvWork(g, s, work) && work != []
    ensures work[|work| - 1].0 < |g| && (|work| > 1 ==> work[|work| - 2].0 < |g|)
    ensures |work| == |s.path| ==>
              work[|work| - 1] == (Top(s.path), s.done[Top(s.path)]) && s.limbo == {}
              && s.index[Top(s.path)] != UNSEEN
    ensures |work| != |s.path| ==>
              var w := work[|work| - 1];
              |work| == |s.path| + 1 && w.1 == 0 && s.index[w.0] == UNSEEN && Ready(g, s.index, s.path, s.limbo, w.0)
  {
    hide Numbered, DoneOk, CompClosed, CompExact, UpOk, DownOk, LowSound, LowComplete;
    if |s.path| > 1 {
      assert work[|s.path| - 2].0 == s.path[|s.path| - 2];
    }
    if |work| == |s.path| {
      TopFacts(s.index, s.onStack, s.stack, s.path);
    }
  }

  lemma WorkVisited(g: Graph, index: seq<nat>, path: seq<nat>, done: seq<nat>, limbo: set<nat>,
                    work: seq<(nat, nat)>, v: nat, m: nat)
    requires |index| == |done| == |g| && forall i :: 0 <= i < |path| ==> path[i] < |g|
    requires WorkOk(g, index, path, done, limbo, work) && |work| == |path| + 1 && v == work[|path|].0
    requires v < |g| && done[v] == 0
    ensures forall i :: 0 <= i < |path + [v]| ==> (path + [v])[i] < |g|
    ensures WorkOk(g, index[v := m], path + [v], done, {}, work)
  {}

  lemma WorkFollowed(g: Graph, index: seq<nat>, path: seq<nat>, done: seq<nat>, work: seq<(nat, nat)>, w: nat)
    requires |index| == |done| == |g| && forall i :: 0 <= i < |path| ==> path[i] < |g|
    requires path != [] && forall i :: 0 <= i < |path| - 1 ==> path[i] != Top(path)
    requires WorkOk(g, index, path, done, {}, work) && |work| == |path|
    ensures var v := Top(path);
            var work', done' := work[|work| - 1 := (v, done[v] + 1)], done[v := done[v] + 1];
            && WorkOk(g, index, path, done', {}, work')
            && (Ready(g, index, path, {w}, w) ==> WorkOk(g, index, path, done', {w}, work' + [(w, 0)]))
  {}

  lemma WorkLeft(g: Graph, index: seq<nat>, path: seq<nat>, done: seq<nat>, work: seq<(nat, nat)>)
    requires |index| == |done| == |g| && forall i :: 0 <= i < |path| ==> path[i] < |g|
    requires path != [] && WorkOk(g, index, path, done, {}, work) && |work| == |path|
    ensures WorkOk(g, index, path[..|path| - 1], done, {}, work[..|work| - 1])
    ensures |path| > 1 ==> work[|work| - 2].0 == path[|path| - 2]
  {}

  lemma TopStands(g: Graph, s: State) returns (p: nat)
    requires Inv(g, s) && s.path != []
    ensures Top(s.path) < |g| && s.onStack[Top(s.path)]
    ensures p < |s.stack| && s.stack[p] == Top(s.path)
    ensures |s.path| > 1 ==> s.path[|s.path| - 2] < |g|
    ensures forall v :: 0 <= v < |g| ==> s.done[v] <= |g[v]|
    ensures s.index[Top(s.path)] != UNSEEN
    ensures forall i :: 0 <= i < |s.stack| ==> s.stack[i] < |g|
    ensures forall i, j :: 0 <= i < j < |s.stack| ==> s.stack[i] != s.stack[j]
    ensures forall v :: v in s.path ==> v < |g|
    ensures forall i :: 0 <= i < |s.path| - 1 ==> s.path[i] != Top(s.path)
  {
    hide Numbered, DoneOk, CompClosed, CompExact, UpOk, DownOk, LowSound, LowComplete;
    DoneBounds(g, s.index, s.path, s.done, s.limbo);
    p :| 0 <= p < |s.stack| && s.stack[p] == Top(s.path);
  }

  lemma AtEnd(g: Graph, s: State)
    requires Inv(g, s) && s.path == [] && s.limbo == {} && forall v :: 0 <= v < |g| ==> s.index[v] != UNSEEN
    ensures |s.order| == |g| && RemainingIn(g, s) == 0
    ensures forall v :: 0 <= v < |g| ==> s.comp[v] < |g|
    ensures Components(g, s.comp)
  {
    hide CompExact, UpOk, LowSound, LowComplete;
    OrderFull(s.index, s.order);
    RemainingNone(g, s.done);
    NothingStacked(g, s.index, s.onStack);
    CompFinal(g, s.index, s.onStack, s.comp, s.ncomp);
  }

  lemma NothingStacked(g: Graph, index: seq<nat>, onStack: seq<bool>)
    requires |index| == |onStack| && PathOk(index, onStack, []) && DownOk(g, index, onStack, [])
    ensures forall v :: 0 <= v < |index| ==> !onStack[v]
  {}

  lemma OrderFull(index: seq<nat>, order: seq<nat>)
    requires Numbered(index, order) && forall v :: 0 <= v < |index| ==> index[v] != UNSEEN
    ensures |order| == |index|
  {
    DistinctBound(order, |index|);
    forall v | 0 <= v < |index|
      ensures v in order
    {
      assert order[index[v]] == v;
    }
    CoverBound(order, |index|);
  }

  lemma CompFinal(g: Graph, index: seq<nat>, onStack: seq<bool>, comp: seq<nat>, ncomp: nat)
    requires |index| == |onStack| == |comp| == |g| && Closed(g)
    requires CompClosed(g, index, onStack, comp, ncomp) && CompExact(g, index, onStack, comp)
    requires forall v :: 0 <= v < |g| ==> Settled(index, onStack, v)
    ensures Components(g, comp)
  {}

  /** The components of a graph, numbered against its edges: two vertices share a
      number exactly when each reaches the other, and a call never goes to a
      larger number. */
  ghost predicate Components(g: Graph, comp: seq<nat>) {
    && |comp| == |g|
    && (forall u, v :: 0 <= u < |g| && 0 <= v < |g| ==> (comp[u] == comp[v] <==> Mutual(g, u, v)))
    && (forall u, j :: 0 <= u < |g| && 0 <= j < |g[u]| && g[u][j] < |g| ==> comp[g[u][j]] <= comp[u])
  }

  /** Following the next call of the top of the work stack keeps the invariant
      and leaves one call less. */
  lemma Followed(g: Graph, s: State, work: seq<(nat, nat)>)
    requires InvWork(g, s, work) && work != [] && |work| == |s.path|
    requires var (v, k) := work[|work| - 1]; v < |g| && k < |g[v]|
    ensures FollowedOk(g, s, work)
  {
    hide Numbered, StackOk, PathOk, DoneOk, CompClosed, CompExact, UpOk, DownOk, LowSound, LowComplete, Ready, WorkOk;
    WorkTop(g, s, work);
    var p := TopStands(g, s);
    var (v, k) := work[|work| - 1];
    DoneBounds(g, s.index, s.path, s.done, s.limbo);
    RemainingDrops(g, s.done, v);
    WorkFollowed(g, s.index, s.path, s.done, work, g[v][k]);
    if s.index[g[v][k]] == UNSEEN {
      FollowNewKeeps(g, s, v);
    } else {
      FollowSeenKeeps(g, s, v);
    }
  }

  ghost predicate FollowedOk(g: Graph, s: State, work: seq<(nat, nat)>) {
    && Closed(g) && Sizes(g, s) && work != []
    && var (v, k) := work[|work| - 1];
    && v < |g| && k < |g[v]|
    && var w, work' := g[v][k], work[|work| - 1 := (v, k + 1)];
    && if s.index[w] == UNSEEN
       then InvWork(g, FollowNew(s, v, w), work' + [(w, 0)]) && OneLess(g, s, FollowNew(s, v, w))
       else InvWork(g, FollowSeen(s, v, w), work') && OneLess(g, s, FollowSeen(s, v, w))
  }

  ghost predicate OneLess(g: Graph, s: State, t: State) {
    && Inv(g, s) && Inv(g, t)
    && RemainingIn(g, t) == RemainingIn(g, s) - 1 && Left(g, t) == Left(g, s) - 1
  }

  /** The variables of the walk. `s` is what they stand for. */
  class Walk {
    const g: Graph
    const index: array<nat>
    const low: array<nat>
    const onStack: array<bool>
    const comp: array<nat>
    var next: nat
    var ncomp: nat
    var stack: seq<nat>
    /** The path being explored; the second part indexes into the vertex's calls. */
    var work: seq<(nat, nat)>
    ghost var s: State

    ghost predicate Mirrors()
      reads this, index, low, onStack, comp
    {
      && index != low && low != comp && index != comp
      && index[..] == s.index && low[..] == s.low && onStack[..] == s.onStack && comp[..] == s.comp
      && next == |s.order| && ncomp == s.ncomp && stack == s.stack
    }

    ghost predicate Valid()
      reads this, index, low, onStack, comp
    {
      |g| < UNSEEN && Mirrors() && InvWork(g, s, work)
    }

    constructor (g: Graph)
      requires Closed(g) && |g| < UNSEEN
      ensures Valid() && this.g == g && s == Start(|g|) && work == []
      ensures fresh(index) && fresh(low) && fresh(onStack) && fresh(comp)
    {
      this.g := g;
      index, low := new nat[|g|](_ => UNSEEN), new nat[|g|](_ => 0);
      onStack, comp := new bool[|g|](_ => false), new nat[|g|](_ => UNSEEN);
      next, ncomp, stack, work := 0, 0, [], [];
      s := Start(|g|);
      new;
      StartHolds(g);
    }

    /** Number and stack the vertex on top of the work stack. */
    method Discover()
      requires Valid() && work != []
      requires work[|work| - 1].0 < |g| && index[work[|work| - 1].0] == UNSEEN
      modifies this, index, low, onStack
      ensures Valid() && work == old(work) && |work| == |s.path|
      ensures s.index == old(s.index)[work[|work| - 1].0 := |old(s).order|] && s.index[work[|work| - 1].0] != UNSEEN
      ensures RemainingIn(g, s) == old(RemainingIn(g, s)) && Left(g, s) == old(Left(g, s))
    {
      hide Numbered, StackOk, PathOk, DoneOk, CompClosed, CompExact, UpOk, DownOk, LowSound, LowComplete, Ready, WorkOk;
      WorkTop(g, s, work);
      var v := work[|work| - 1].0;
      Bounds(s.index, s.onStack, s.order, s.path);
      DoneBounds(g, s.index, s.path, s.done, s.limbo);
      WorkVisited(g, s.index, s.path, s.done, s.limbo, work, v, |s.order|);
      VisitKeeps(g, s, v);
      index[v] := next;
      low[v] := next;
      next := next + 1;
      stack := stack + [v];
      onStack[v] := true;
      s := Visit(s, v);
    }

    /** Follow the next call of the vertex on top of the work stack. */
    method Follow()
      requires Valid() && work != [] && |work| == |s.path|
      requires work[|work| - 1].0 < |g| && work[|work| - 1].1 < |g[work[|work| - 1].0]|
      modifies this, low
      ensures Valid() && s.index == old(s).index
      ensures RemainingIn(g, s) == old(RemainingIn(g, s)) - 1 && Left(g, s) == old(Left(g, s)) - 1
    {
      hide Numbered, StackOk, PathOk, DoneOk, CompClosed, CompExact, UpOk, DownOk, LowSound, LowComplete, Ready, WorkOk;
      Followed(g, s, work);
      var (v, k) := work[|work| - 1];
      var w := g[v][k];
      work := work[|work| - 1 := (v, k + 1)];
      if index[w] == UNSEEN {
        work := work + [(w, 0)];
        s := FollowNew(s, v, w);
      } else {
        if onStack[w] {
          low[v] := Min(low[v], index[w]);
        }
        s := FollowSeen(s, v, w);
      }
    }

    /** Leave the vertex on top of the work stack, and give out its component
        when it is the first of it. */
    method Finish()
      requires Valid() && work != [] && |work| == |s.path|
      requires work[|work| - 1].0 < |g| && work[|work| - 1].1 >= |g[work[|work| - 1].0]|
      modifies this, low, onStack, comp
      ensures Valid() && s.index == old(s).index && |work| < |old(work)|
      ensures RemainingIn(g, s) == old(RemainingIn(g, s)) && Left(g, s) == old(Left(g, s)) - 1
    {
      hide Unstacked, Assigned;
      hide Numbered, StackOk, PathOk, DoneOk, CompClosed, CompExact, UpOk, DownOk, LowSound, LowComplete, Ready, WorkOk;
      WorkTop(g, s, work);
      ghost var p := TopStands(g, s);
      WorkLeft(g, s.index, s.path, s.done, work);
      ghost var before := s;
      var v := work[|work| - 1].0;
      work := work[..|work| - 1];
      if work != [] {
        var parent := work[|work| - 1].0;
        low[parent] := Min(low[parent], low[v]);
      }
      s := Leave(s);
      if low[v] == index[v] {
        EmitKeeps(g, before, p);
        PopComponent(v, p);
        ncomp := ncomp + 1;
        s := Emit(s, p);
      } else {
        LeaveKeeps(g, before);
      }
    }

    /** One turn of the loop. */
    method Turn()
      requires Valid() && work != []
      modifies this, index, low, onStack, comp
      ensures Valid() && Left(g, s) == old(Left(g, s)) - 1
      ensures forall v :: 0 <= v < |g| && old(index[v]) != UNSEEN ==> index[v] != UNSEEN
      ensures forall v :: 0 <= v < |g| && old(work) == [(v, 0)] ==> index[v] != UNSEEN
      ensures RemainingIn(g, s) < old(RemainingIn(g, s))
           || (RemainingIn(g, s) == old(RemainingIn(g, s)) && |work| < |old(work)|)
    {
      hide Numbered, StackOk, PathOk, DoneOk, CompClosed, CompExact, UpOk, DownOk, LowSound, LowComplete, Ready, WorkOk;
      WorkTop(g, s, work);
      var (v, k) := work[|work| - 1];
      if k == 0 && index[v] == UNSEEN {
        Discover();
      }
      WorkTop(g, s, work);
      if k < |g[v]| {
        Follow();
      } else {
        Finish();
      }
    }

    /** Give the next component to the stacked vertices down to `v`, which stands at `p`. */
    method PopComponent(v: nat, ghost p: nat)
      requires p < |stack| && stack[p] == v && onStack.Length == comp.Length
      requires forall i :: 0 <= i < |stack| ==> stack[i] < comp.Length
      requires forall i, j :: 0 <= i < j < |stack| ==> stack[i] != stack[j]
      modifies this`stack, onStack, comp
      ensures stack == old(stack)[..p]
      ensures onStack[..] == Unstacked(old(onStack[..]), old(stack)[p..])
      ensures comp[..] == Assigned(old(comp[..]), old(stack)[p..], ncomp)
    {
      ghost var was := stack;
      while stack != []
        invariant p < |stack| <= |was| && stack == was[..|stack|]
        invariant forall u :: 0 <= u < comp.Length ==> onStack[u] == (old(onStack[u]) && u !in was[|stack|..])
        invariant forall u :: 0 <= u < comp.Length ==> comp[u] == if u in was[|stack|..] then ncomp else old(comp[u])
      {
        var w := stack[|stack| - 1];
        stack := stack[..|stack| - 1];
        assert was[|stack|..] == [w] + was[|stack| + 1..];
        onStack[w] := false;
        comp[w] := ncomp;
        if w == v {
          break;
        }
      }
    }
  }

  /** Numbers the classes of mutual reachability. `steps` counts the turns
      of the loop: one a vertex and one a call, whatever the graph. */
  method CallComponents(g: Graph) returns (r: seq<nat>, ghost steps: nat)
    requires Closed(g) && |g| < UNSEEN
    ensures Components(g, r)
    ensures forall v :: 0 <= v < |g| ==> r[v] < |g|
    ensures steps == |g| + Calls(g)
  {
    hide Numbered, StackOk, PathOk, DoneOk, CompClosed, CompExact, UpOk, DownOk, LowSound, LowComplete;
    var walk := new Walk(g);
    steps := 0;
    for root := 0 to |g|
      invariant walk.Valid() && walk.g == g && walk.work == []
      invariant fresh(walk) && fresh(walk.index) && fresh(walk.low) && fresh(walk.onStack) && fresh(walk.comp)
      invariant forall v :: 0 <= v < root ==> walk.index[v] != UNSEEN
      invariant Left(g, walk.s) + steps == Calls(g)
    {
      if walk.index[root] != UNSEEN {
        continue;
      }
      walk.work := [(root, 0)];
      while walk.work != []
        invariant walk.Valid() && walk.g == g
        invariant fresh(walk) && fresh(walk.index) && fresh(walk.low) && fresh(walk.onStack) && fresh(walk.comp)
        invariant forall v :: 0 <= v < root ==> walk.index[v] != UNSEEN
        invariant walk.index[root] != UNSEEN || walk.work == [(root, 0)]
        invariant Left(g, walk.s) + steps == Calls(g)
        decreases RemainingIn(g, walk.s), |walk.work|
      {
        walk.Turn();
        steps := steps + 1;
      }
    }
    AtEnd(g, walk.s);
    r := walk.comp[..];
  }
}
