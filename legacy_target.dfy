// The oldest engine, `Target` and `PureTarget`. Every target object lives in
// one arena and is identified by the order in which it was constructed;
// the arena also holds the static `instancesByKey` registry and a record of
// the `onStale` hook's calls. A target's mutable fields (`version`,
// `status`, freshness, `value`, `activeBuild`, its dependents and the
// recorded input versions) are its arena entry. A build runs as steps
// between awaits: `get` starts it, each awaited input arrives, the
// subclass's `build` returns, and `runBuild` finishes.
module LegacyTargets {
  import opened Common

  /** A target output: a number, a string, an object (by identity) or `undefined`; null is `None`. */
  datatype Output = Num(x: real) | NaN | Str(s: string) | Obj(ref: nat) | Undefined

  /** `a === b` on outputs or null: objects compare by identity, and NaN is identical to nothing. */
  predicate Identical(a: Option<Output>, b: Option<Output>)
  {
    a == b && !(a.Some? && a.value.NaN?)
  }

  datatype Status = Ok | Warn | Fail | Skip

  datatype Freshness = Fresh | MaybeStale | Stale

  /**
   * Where the target's active build is; `activeBuild` is null exactly when
   * `Idle`. `AwaitingInput(k)`: `buildWrapper` awaits the k-th input's
   * `get()`; `AwaitingBuild`: it awaits the subclass's `build`;
   * `WrapperDone(result)`: `runBuild` awaits `buildWrapper`'s result.
   */
  datatype Progress = Idle | AwaitingInput(k: nat) | AwaitingBuild | WrapperDone(result: Option<Output>)

  /** One target object. `pure` is `buildIsPureFunction`, true for a `PureTarget`. */
  datatype Node = Node(
    key: string,
    pure: bool,
    inputs: seq<(string, nat)>,
    dependents: seq<nat>,
    version: nat,
    status: Status,
    freshness: Freshness,
    value: Option<Output>,
    progress: Progress,
    cachedInputVersions: map<string, nat>)

  datatype Graph = Graph(nodes: seq<Node>, instancesByKey: map<string, nat>, staleNotices: seq<nat>)

  /** The promise `get()` returns: settled with a value, or the active build of a target. */
  datatype Pending = Ready(value: Option<Output>) | Waiting(target: nat)

  /** A transition's new graph and what the source code returns. */
  datatype Step<+T> = Step(state: Graph, value: T)

  // ---- what every graph satisfies ----

  /**
   * The j-th object of an arena of `size`: its inputs were constructed
   * before it; its dependents are objects of the
   * arena, each once; an awaited input is one of its inputs.
   */
  predicate NodeOk(n: Node, j: nat, size: nat)
  {
    (forall k :: 0 <= k < |n.inputs| ==> n.inputs[k].1 < j) &&
    (forall k :: 0 <= k < |n.dependents| ==> n.dependents[k] < size) &&
    NoDuplicates(n.dependents) &&
    (n.progress.AwaitingInput? ==> n.progress.k < |n.inputs|)
  }

  /** `instancesByKey` maps each key to the object constructed with it. */
  predicate RegistryOk(nodes: seq<Node>, instancesByKey: map<string, nat>)
  {
    forall key :: key in instancesByKey ==> instancesByKey[key] < |nodes| && nodes[instancesByKey[key]].key == key
  }

  predicate GraphOk(g: Graph)
  {
    (forall j :: 0 <= j < |g.nodes| ==> NodeOk(g.nodes[j], j, |g.nodes|)) &&
    RegistryOk(g.nodes, g.instancesByKey)
  }

  /** The same objects, with the same inputs, dependents and keys. */
  predicate SameShape(n: Node, m: Node)
  {
    m.key == n.key && m.inputs == n.inputs && m.dependents == n.dependents
  }

  /** Replacing one object by one of the same shape, whose progress is well formed, keeps the graph well formed. */
  lemma ReplaceKeepsOk(g: Graph, i: nat, n: Node)
    requires GraphOk(g) && i < |g.nodes| && SameShape(g.nodes[i], n)
    requires n.progress.AwaitingInput? ==> n.progress.k < |n.inputs|
    ensures GraphOk(g.(nodes := g.nodes[i := n]))
  {
    assert NodeOk(n, i, |g.nodes|);
  }

  function Replace(g: Graph, i: nat, n: Node): (r: Graph)
    requires GraphOk(g) && i < |g.nodes| && SameShape(g.nodes[i], n)
    requires n.progress.AwaitingInput? ==> n.progress.k < |n.inputs|
    ensures GraphOk(r)
    ensures r == g.(nodes := g.nodes[i := n])
  {
    ReplaceKeepsOk(g, i, n);
    g.(nodes := g.nodes[i := n])
  }

  // ---- the constructor ----

  function DuplicateKeyMessage(key: string): string
  {
    "Another target with this key already exists: " + key
  }

  /** Adds `id` to the dependents of each of `targets`, in order; a `Set`, so once each. */
  function AddDependent(nodes: seq<Node>, targets: seq<nat>, id: nat): (r: seq<Node>)
    requires forall k :: 0 <= k < |targets| ==> targets[k] < |nodes|
    ensures |r| == |nodes|
    ensures forall j :: 0 <= j < |nodes| ==> r[j] == nodes[j].(dependents := r[j].dependents)
  {
    if |targets| == 0 then nodes
    else
      var t := targets[|targets| - 1];
      var before := AddDependent(nodes, targets[..|targets| - 1], id);
      before[t := before[t].(dependents := SetAdd(before[t].dependents, id))]
  }

  /** Joining the dependents of one object keeps it well formed. */
  lemma JoinOneOk(n: Node, j: nat, size: nat, id: nat)
    requires NodeOk(n, j, size) && id < size
    ensures NodeOk(n.(dependents := SetAdd(n.dependents, id)), j, size)
  {
    SetAddKeepsNoDuplicates(n.dependents, id);
  }

  lemma {:induction false} AddDependentOk(nodes: seq<Node>, targets: seq<nat>, id: nat, size: nat)
    requires forall k :: 0 <= k < |targets| ==> targets[k] < |nodes|
    requires (forall j :: 0 <= j < |nodes| ==> NodeOk(nodes[j], j, size)) && id < size
    ensures forall j :: 0 <= j < |nodes| ==> NodeOk(AddDependent(nodes, targets, id)[j], j, size)
  {
    if |targets| > 0 {
      var t := targets[|targets| - 1];
      AddDependentOk(nodes, targets[..|targets| - 1], id, size);
      var before := AddDependent(nodes, targets[..|targets| - 1], id);
      JoinOneOk(before[t], t, size, id);
    }
  }

  /** Each of `targets` has `id` among its dependents afterwards. */
  lemma {:induction false} AddDependentJoins(nodes: seq<Node>, targets: seq<nat>, id: nat)
    requires forall k :: 0 <= k < |targets| ==> targets[k] < |nodes|
    ensures forall k :: 0 <= k < |targets| ==> id in AddDependent(nodes, targets, id)[targets[k]].dependents
  {
    if |targets| > 0 {
      var t := targets[|targets| - 1];
      AddDependentJoins(nodes, targets[..|targets| - 1], id);
      var before := AddDependent(nodes, targets[..|targets| - 1], id);
      var r := AddDependent(nodes, targets, id);
      forall k | 0 <= k < |targets|
        ensures id in r[targets[k]].dependents
      {
        if k < |targets| - 1 && targets[k] != t {
          assert targets[k] == targets[..|targets| - 1][k];
        }
      }
    }
  }

  /** Joining adds nothing but `id`: an object's dependents afterwards are its old ones or `id`. */
  lemma {:induction false} AddDependentOnlyId(nodes: seq<Node>, targets: seq<nat>, id: nat, j: nat, d: nat)
    requires forall k :: 0 <= k < |targets| ==> targets[k] < |nodes|
    requires j < |nodes| && d in AddDependent(nodes, targets, id)[j].dependents
    ensures d in nodes[j].dependents || d == id
  {
    if |targets| > 0 && d in AddDependent(nodes, targets[..|targets| - 1], id)[j].dependents {
      AddDependentOnlyId(nodes, targets[..|targets| - 1], id, j, d);
    }
  }

  /** The targets of `Object.values(inputTargets)`, in order. */
  function InputTargets(inputs: seq<(string, nat)>): (r: seq<nat>)
    ensures |r| == |inputs| && forall k :: 0 <= k < |r| ==> r[k] == inputs[k].1
  {
    if |inputs| == 0 then [] else InputTargets(inputs[..|inputs| - 1]) + [inputs[|inputs| - 1].1]
  }

  /** What the constructor's arguments must be: a record of targets already constructed. */
  predicate InputsOk(g: Graph, inputs: seq<(string, nat)>)
  {
    forall k :: 0 <= k < |inputs| ==> inputs[k].1 < |g.nodes|
  }

  /** The names of a record's entries are distinct. */
  predicate DistinctNames(inputs: seq<(string, nat)>)
  {
    forall a, b :: 0 <= a < b < |inputs| ==> inputs[a].0 != inputs[b].0
  }

  /**
   * `new Target(key, inputTargets)`: the object starts `stale` with version
   * 0, status `ok`, no value and no active build, and joins the dependents
   * of each of its inputs; only then is the key checked, so an object whose
   * key is taken throws but stays among its inputs' dependents.
   */
  function ConstructStep(g: Graph, key: string, inputs: seq<(string, nat)>, pure: bool): (r: Step<Completion<nat, string>>)
    requires GraphOk(g) && InputsOk(g, inputs)
    ensures GraphOk(r.state)
  {
    var id: nat := |g.nodes|;
    var nodes := Constructed(g, key, inputs, pure);
    ConstructKeepsOk(g, key, inputs, pure);
    if key in g.instancesByKey then Step(g.(nodes := nodes), Threw(DuplicateKeyMessage(key)))
    else Step(g.(nodes := nodes, instancesByKey := g.instancesByKey[key := id]), Returned(id))
  }

  /** A newly constructed object: `stale`, version 0, status `ok`, no value, no active build. */
  function Created(key: string, inputs: seq<(string, nat)>, pure: bool): Node
  {
    Node(key, pure, inputs, [], 0, Ok, Stale, None, Idle, map[])
  }

  /** The arena once the constructor has run: the inputs joined, the new object appended. */
  function Constructed(g: Graph, key: string, inputs: seq<(string, nat)>, pure: bool): seq<Node>
    requires InputsOk(g, inputs)
  {
    AddDependent(g.nodes, InputTargets(inputs), |g.nodes|) + [Created(key, inputs, pure)]
  }

  lemma ConstructKeepsOk(g: Graph, key: string, inputs: seq<(string, nat)>, pure: bool)
    requires GraphOk(g) && InputsOk(g, inputs)
    ensures GraphOk(g.(nodes := Constructed(g, key, inputs, pure)))
    ensures key !in g.instancesByKey ==>
      GraphOk(g.(nodes := Constructed(g, key, inputs, pure), instancesByKey := g.instancesByKey[key := |g.nodes|]))
  {
    var nodes := Constructed(g, key, inputs, pure);
    ConstructedNodesOk(g, key, inputs, pure);
    assert forall j :: 0 <= j < |g.nodes| ==> nodes[j].key == g.nodes[j].key;
    assert RegistryOk(nodes, g.instancesByKey);
  }

  lemma ConstructedNodesOk(g: Graph, key: string, inputs: seq<(string, nat)>, pure: bool)
    requires GraphOk(g) && InputsOk(g, inputs)
    ensures var nodes := Constructed(g, key, inputs, pure); forall j :: 0 <= j < |nodes| ==> NodeOk(nodes[j], j, |nodes|)
  {
    var id := |g.nodes|;
    var added := AddDependent(g.nodes, InputTargets(inputs), id);
    forall j | 0 <= j < id
      ensures NodeOk(g.nodes[j], j, id + 1)
    {
      assert NodeOk(g.nodes[j], j, id);
    }
    AddDependentOk(g.nodes, InputTargets(inputs), id, id + 1);
    assert NodeOk(Created(key, inputs, pure), id, id + 1);
  }

  /**
   * The new object is the next in the arena, as constructed, and a
   * dependent of each of its inputs, whether or not its key was taken;
   * no other object changes but for that.
   */
  lemma ConstructJoins(g: Graph, key: string, inputs: seq<(string, nat)>, pure: bool, r: Step<Completion<nat, string>>)
    requires GraphOk(g) && InputsOk(g, inputs) && r == ConstructStep(g, key, inputs, pure)
    ensures |r.state.nodes| == |g.nodes| + 1 && r.state.nodes[|g.nodes|] == Created(key, inputs, pure)
    ensures forall k :: 0 <= k < |inputs| ==> |g.nodes| in r.state.nodes[inputs[k].1].dependents
    ensures forall j :: 0 <= j < |g.nodes| ==> r.state.nodes[j] == g.nodes[j].(dependents := r.state.nodes[j].dependents)
    ensures r.state.staleNotices == g.staleNotices
  {
    var targets := InputTargets(inputs);
    assert r.state.nodes == Constructed(g, key, inputs, pure);
    AddDependentJoins(g.nodes, targets, |g.nodes|);
    forall k | 0 <= k < |inputs|
      ensures |g.nodes| in r.state.nodes[inputs[k].1].dependents
    {
      assert targets[k] == inputs[k].1;
    }
  }

  /**
   * A taken key throws the duplicate-key error and leaves the registry
   * alone; a new key is registered to the new object, which is returned.
   */
  lemma ConstructRegisters(g: Graph, key: string, inputs: seq<(string, nat)>, pure: bool, r: Step<Completion<nat, string>>)
    requires GraphOk(g) && InputsOk(g, inputs) && r == ConstructStep(g, key, inputs, pure)
    ensures key in g.instancesByKey ==> r.value == Threw(DuplicateKeyMessage(key)) && r.state.instancesByKey == g.instancesByKey
    ensures key !in g.instancesByKey ==> r.value == Returned(|g.nodes|) && r.state.instancesByKey == g.instancesByKey[key := |g.nodes|]
  {
  }

  // ---- setState and markStale ----

  /**
   * `setState(state)`: `maybe-stale` becomes `stale` unless the build is a
   * pure function, and the `onStale` hook runs when the result is `stale`.
   */
  function SetState(g: Graph, i: nat, state: Freshness): (r: Graph)
    requires GraphOk(g) && i < |g.nodes|
    ensures GraphOk(r) && |r.nodes| == |g.nodes|
    ensures r.nodes == g.nodes[i := g.nodes[i].(freshness := r.nodes[i].freshness)]
    ensures r.instancesByKey == g.instancesByKey
    ensures r.nodes[i].freshness == MaybeStale <==> state == MaybeStale && g.nodes[i].pure
    ensures r.nodes[i].freshness == Stale <==> state == Stale || (state == MaybeStale && !g.nodes[i].pure)
    ensures r.staleNotices == g.staleNotices + if r.nodes[i].freshness == Stale then [i] else []
  {
    var actual := if state == MaybeStale && !g.nodes[i].pure then Stale else state;
    var replaced := Replace(g, i, g.nodes[i].(freshness := actual));
    replaced.(staleNotices := g.staleNotices + if actual == Stale then [i] else [])
  }

  /** The number of fresh objects, which `markStale` lowers. */
  function FreshCount(nodes: seq<Node>): nat
  {
    if |nodes| == 0 then 0
    else FreshCount(nodes[..|nodes| - 1]) + if nodes[|nodes| - 1].freshness == Fresh then 1 else 0
  }

  lemma {:induction false} FreshCountReplace(nodes: seq<Node>, i: nat, n: Node)
    requires i < |nodes|
    ensures FreshCount(nodes[i := n]) + (if nodes[i].freshness == Fresh then 1 else 0) ==
            FreshCount(nodes) + (if n.freshness == Fresh then 1 else 0)
  {
    if i < |nodes| - 1 {
      assert nodes[i := n][..|nodes| - 1] == nodes[..|nodes| - 1][i := n];
      FreshCountReplace(nodes[..|nodes| - 1], i, n);
    } else {
      assert nodes[i := n][..|nodes| - 1] == nodes[..|nodes| - 1];
    }
  }

  /**
   * What a `markStale` cascade may do to the objects: it only turns fresh
   * ones into `maybe-stale` (pure) or `stale` (otherwise), and touches
   * nothing else.
   */
  ghost predicate OnlyMarks(g: Graph, r: Graph)
  {
    |r.nodes| == |g.nodes| && r.instancesByKey == g.instancesByKey &&
    (forall j :: 0 <= j < |g.nodes| ==> r.nodes[j] == g.nodes[j].(freshness := r.nodes[j].freshness)) &&
    (forall j :: 0 <= j < |g.nodes| && r.nodes[j].freshness != g.nodes[j].freshness ==>
      g.nodes[j].freshness == Fresh && r.nodes[j].freshness == if g.nodes[j].pure then MaybeStale else Stale)
  }

  /** The `onStale` calls recorded from `g` to `r`. */
  function NewNotices(g: Graph, r: Graph): seq<nat>
    requires |g.staleNotices| <= |r.staleNotices|
  {
    r.staleNotices[|g.staleNotices|..]
  }

  /** The record only grows, by exactly the objects that went from fresh to `stale`. */
  ghost predicate NoticesKeep(g: Graph, r: Graph)
  {
    |g.staleNotices| <= |r.staleNotices| && r.staleNotices[..|g.staleNotices|] == g.staleNotices &&
    |r.nodes| == |g.nodes| &&
    forall d: nat :: d in NewNotices(g, r) <==> d < |g.nodes| && g.nodes[d].freshness == Fresh && r.nodes[d].freshness == Stale
  }

  /** What a `markStale` cascade may do, and that it never makes more objects fresh. */
  ghost predicate MarkKeeps(g: Graph, r: Graph)
  {
    OnlyMarks(g, r) && NoticesKeep(g, r) && FreshCount(r.nodes) <= FreshCount(g.nodes)
  }

  lemma MarkKeepsReflexive(g: Graph)
    ensures MarkKeeps(g, g)
  {
    assert g.staleNotices[..|g.staleNotices|] == g.staleNotices;
    assert NewNotices(g, g) == [];
  }

  lemma OnlyMarksTransitive(g0: Graph, g1: Graph, g2: Graph)
    requires OnlyMarks(g0, g1) && OnlyMarks(g1, g2)
    ensures OnlyMarks(g0, g2)
  {
  }

  lemma NoticesKeepTransitive(g0: Graph, g1: Graph, g2: Graph)
    requires OnlyMarks(g0, g1) && OnlyMarks(g1, g2) && NoticesKeep(g0, g1) && NoticesKeep(g1, g2)
    ensures NoticesKeep(g0, g2)
  {
    var n0, n1 := |g0.staleNotices|, |g1.staleNotices|;
    assert g2.staleNotices[..n0] == g2.staleNotices[..n1][..n0];
    assert NewNotices(g0, g2) == NewNotices(g0, g1) + NewNotices(g1, g2) by {
      assert g2.staleNotices == g1.staleNotices + NewNotices(g1, g2);
    }
  }

  lemma MarkKeepsTransitive(g0: Graph, g1: Graph, g2: Graph)
    requires MarkKeeps(g0, g1) && MarkKeeps(g1, g2)
    ensures MarkKeeps(g0, g2)
  {
    OnlyMarksTransitive(g0, g1, g2);
    NoticesKeepTransitive(g0, g1, g2);
  }

  /** Marking one fresh object is one step of a cascade, and lowers the fresh count. */
  lemma MarkOneKeeps(g: Graph, i: nat)
    requires GraphOk(g) && i < |g.nodes| && g.nodes[i].freshness == Fresh
    ensures MarkKeeps(g, SetState(g, i, MaybeStale))
    ensures FreshCount(SetState(g, i, MaybeStale).nodes) < FreshCount(g.nodes)
  {
    var r := SetState(g, i, MaybeStale);
    FreshCountReplace(g.nodes, i, r.nodes[i]);
    MarkOneNotices(g, i, r);
    MarkOneOnlyMarks(g, i, r);
  }

  lemma MarkOneOnlyMarks(g: Graph, i: nat, r: Graph)
    requires GraphOk(g) && i < |g.nodes| && g.nodes[i].freshness == Fresh && r == SetState(g, i, MaybeStale)
    ensures OnlyMarks(g, r)
  {
    assert r.nodes[i].freshness == if g.nodes[i].pure then MaybeStale else Stale;
  }

  /** A cascade leaves an object that was not fresh as it was. */
  lemma StaysMarked(g: Graph, r: Graph, j: nat)
    requires OnlyMarks(g, r) && j < |g.nodes| && g.nodes[j].freshness != Fresh
    ensures r.nodes[j] == g.nodes[j]
  {
  }

  lemma MarkOneNotices(g: Graph, i: nat, r: Graph)
    requires GraphOk(g) && i < |g.nodes| && g.nodes[i].freshness == Fresh && r == SetState(g, i, MaybeStale)
    ensures NoticesKeep(g, r)
  {
    assert r.staleNotices[..|g.staleNotices|] == g.staleNotices;
    assert NewNotices(g, r) == if r.nodes[i].freshness == Stale then [i] else [];
    forall d: nat
      ensures d in NewNotices(g, r) <==> d < |g.nodes| && g.nodes[d].freshness == Fresh && r.nodes[d].freshness == Stale
    {
      if d != i && d < |g.nodes| {
        assert r.nodes[d] == g.nodes[d];
      }
    }
  }

  /**
   * `markStale()` on object i: nothing unless it is fresh; otherwise it is
   * marked `maybe-stale` and each of its dependents is marked in turn.
   */
  function MarkStale(g: Graph, i: nat): (r: Graph)
    requires GraphOk(g) && i < |g.nodes|
    decreases FreshCount(g.nodes), 0, 0
    ensures GraphOk(r) && MarkKeeps(g, r)
    ensures g.nodes[i].freshness != Fresh ==> r == g
    ensures r.nodes[i].freshness != Fresh
    ensures g.nodes[i].freshness == Fresh ==>
      forall k :: 0 <= k < |g.nodes[i].dependents| ==> r.nodes[g.nodes[i].dependents[k]].freshness != Fresh
  {
    if g.nodes[i].freshness != Fresh then
      MarkKeepsReflexive(g);
      g
    else
      var marked := SetState(g, i, MaybeStale);
      MarkOneKeeps(g, i);
      var r := MarkEach(marked, g.nodes[i].dependents);
      MarkKeepsTransitive(g, marked, r);
      StaysMarked(marked, r, i);
      r
  }

  /** `for (const target of dependents) target.markStale()`. */
  function MarkEach(g: Graph, ds: seq<nat>): (r: Graph)
    requires GraphOk(g) && forall k :: 0 <= k < |ds| ==> ds[k] < |g.nodes|
    decreases FreshCount(g.nodes), 1, |ds|
    ensures GraphOk(r) && MarkKeeps(g, r)
    ensures forall k :: 0 <= k < |ds| ==> r.nodes[ds[k]].freshness != Fresh
  {
    if |ds| == 0 then
      MarkKeepsReflexive(g);
      g
    else
      var first := MarkStale(g, ds[0]);
      var r := MarkEach(first, ds[1..]);
      MarkEachCombines(g, first, r, ds);
      r
  }

  lemma MarkEachCombines(g: Graph, first: Graph, r: Graph, ds: seq<nat>)
    requires |ds| > 0 && ds[0] < |g.nodes| && MarkKeeps(g, first) && MarkKeeps(first, r)
    requires first.nodes[ds[0]].freshness != Fresh
    requires forall k :: 0 <= k < |ds| - 1 ==> ds[1..][k] < |r.nodes| && r.nodes[ds[1..][k]].freshness != Fresh
    ensures MarkKeeps(g, r)
    ensures forall k :: 0 <= k < |ds| ==> ds[k] < |r.nodes| && r.nodes[ds[k]].freshness != Fresh
  {
    MarkKeepsTransitive(g, first, r);
    StaysMarked(first, r, ds[0]);
    forall k | 0 <= k < |ds|
      ensures ds[k] < |r.nodes| && r.nodes[ds[k]].freshness != Fresh
    {
      if k > 0 {
        assert ds[k] == ds[1..][k - 1];
      }
    }
  }

  /** `markStale` is idempotent: a second call changes nothing. */
  lemma MarkStaleIdempotent(g: Graph, i: nat)
    requires GraphOk(g) && i < |g.nodes|
    ensures MarkStale(MarkStale(g, i), i) == MarkStale(g, i)
  {
  }

  /**
   * After `markStale` on a fresh object, it is `maybe-stale` if pure and
   * `stale` otherwise; no object became fresh, and no value, version or
   * status changed.
   */
  lemma MarkStaleCascades(g: Graph, i: nat, r: Graph)
    requires GraphOk(g) && i < |g.nodes| && g.nodes[i].freshness == Fresh && r == MarkStale(g, i)
    ensures r.nodes[i].freshness == if g.nodes[i].pure then MaybeStale else Stale
    ensures forall j :: 0 <= j < |g.nodes| ==>
      r.nodes[j].value == g.nodes[j].value && r.nodes[j].version == g.nodes[j].version &&
      r.nodes[j].status == g.nodes[j].status && (r.nodes[j].freshness == Fresh ==> g.nodes[j].freshness == Fresh)
  {
    var marked := SetState(g, i, MaybeStale);
    assert r == MarkEach(marked, g.nodes[i].dependents);
    assert MarkKeeps(marked, r);
    assert r.nodes[i].freshness == marked.nodes[i].freshness;
    assert MarkKeeps(g, r);
    forall j | 0 <= j < |g.nodes|
      ensures r.nodes[j].value == g.nodes[j].value && r.nodes[j].version == g.nodes[j].version
      ensures r.nodes[j].status == g.nodes[j].status && (r.nodes[j].freshness == Fresh ==> g.nodes[j].freshness == Fresh)
    {
      assert r.nodes[j] == g.nodes[j].(freshness := r.nodes[j].freshness);
    }
  }

  // ---- get and the steps of a build ----

  /** `PureTarget.isStillFresh`: every input's version is the one recorded before the last build. */
  predicate StillFresh(g: Graph, i: nat)
    requires GraphOk(g) && i < |g.nodes|
  {
    var n := g.nodes[i];
    n.pure &&
    forall k :: 0 <= k < |n.inputs| ==>
      n.inputs[k].0 in n.cachedInputVersions && n.cachedInputVersions[n.inputs[k].0] == g.nodes[n.inputs[k].1].version
  }

  /** `cachedInputVersions.set(name, target.version)` for each input in turn. */
  function RecordVersions(nodes: seq<Node>, cached: map<string, nat>, inputs: seq<(string, nat)>): (m: map<string, nat>)
    requires forall k :: 0 <= k < |inputs| ==> inputs[k].1 < |nodes|
    ensures DistinctNames(inputs) ==> forall k :: 0 <= k < |inputs| ==> inputs[k].0 in m && m[inputs[k].0] == nodes[inputs[k].1].version
  {
    if |inputs| == 0 then cached
    else
      var last := inputs[|inputs| - 1];
      RecordVersions(nodes, cached, inputs[..|inputs| - 1])[last.0 := nodes[last.1].version]
  }

  /** `beforeBuild()`: a pure target records its inputs' versions; any other target does nothing. */
  function BeforeBuild(g: Graph, i: nat): (r: Graph)
    requires GraphOk(g) && i < |g.nodes|
    ensures GraphOk(r) && OnlyAt(g, r, i) && r.staleNotices == g.staleNotices
    ensures r.nodes[i] == g.nodes[i].(cachedInputVersions := r.nodes[i].cachedInputVersions)
  {
    var n := g.nodes[i];
    if n.pure then
      assert forall k :: 0 <= k < |n.inputs| ==> n.inputs[k].1 < |g.nodes| by {
        assert NodeOk(n, i, |g.nodes|);
      }
      Replace(g, i, n.(cachedInputVersions := RecordVersions(g.nodes, n.cachedInputVersions, n.inputs)))
    else g
  }

  /** Right after `beforeBuild`, a pure target is still fresh: the recorded versions are the current ones. */
  lemma BeforeBuildThenStillFresh(g: Graph, i: nat)
    requires GraphOk(g) && i < |g.nodes| && g.nodes[i].pure && DistinctNames(g.nodes[i].inputs)
    ensures StillFresh(BeforeBuild(g, i), i)
  {
    var n := g.nodes[i];
    assert NodeOk(n, i, |g.nodes|);
    var r := BeforeBuild(g, i);
    forall k | 0 <= k < |n.inputs|
      ensures r.nodes[n.inputs[k].1].version == g.nodes[n.inputs[k].1].version
    {
      assert n.inputs[k].1 < i;
    }
  }

  /** A pure target one of whose inputs moved to another version since they were recorded is not still fresh. */
  lemma VersionChangeNotStillFresh(g: Graph, i: nat, k: nat)
    requires GraphOk(g) && i < |g.nodes| && k < |g.nodes[i].inputs|
    requires var n := g.nodes[i];
      n.inputs[k].0 in n.cachedInputVersions && n.cachedInputVersions[n.inputs[k].0] != g.nodes[n.inputs[k].1].version
    ensures !StillFresh(g, i)
  {
  }

  /** What the steps of a build do to the graph: other objects below a bound are left alone. */
  ghost predicate BuildKeeps(g: Graph, r: Graph, above: nat)
  {
    |r.nodes| == |g.nodes| && r.instancesByKey == g.instancesByKey &&
    (forall j :: above <= j < |g.nodes| ==> r.nodes[j] == g.nodes[j]) &&
    (forall j :: 0 <= j < |g.nodes| ==> SameShape(g.nodes[j], r.nodes[j]))
  }

  lemma BuildKeepsReflexive(g: Graph, above: nat)
    ensures BuildKeeps(g, g, above)
  {
  }

  /**
   * The rest of `buildWrapper` once every input has arrived with a value: a
   * `maybe-stale` target that is still fresh becomes `fresh` and returns
   * its value without building; otherwise a `maybe-stale` one becomes
   * `stale`, `beforeBuild` runs, the status becomes `ok` and `build` is
   * called.
   */
  function AfterInputs(g: Graph, i: nat): (r: Graph)
    requires GraphOk(g) && i < |g.nodes|
    ensures GraphOk(r) && OnlyAt(g, r, i) && r.nodes[i].progress != Idle
  {
    if g.nodes[i].freshness == MaybeStale && StillFresh(g, i) then KeepFresh(g, i)
    else CallBuild(g, i)
  }

  /** The object at `i` is the only one that changed, and it kept its shape. */
  predicate OnlyAt(g: Graph, r: Graph, i: nat)
    requires i < |g.nodes|
  {
    |r.nodes| == |g.nodes| && r.nodes == g.nodes[i := r.nodes[i]] && SameShape(g.nodes[i], r.nodes[i]) &&
    r.instancesByKey == g.instancesByKey
  }

  /** Still fresh: `setState("fresh")`, and the wrapper returns the current value. */
  function KeepFresh(g: Graph, i: nat): (r: Graph)
    requires GraphOk(g) && i < |g.nodes|
    ensures GraphOk(r) && OnlyAt(g, r, i)
    ensures r.nodes[i] == g.nodes[i].(freshness := Fresh, progress := WrapperDone(g.nodes[i].value))
    ensures r.staleNotices == g.staleNotices
  {
    var refreshed := SetState(g, i, Fresh);
    Replace(refreshed, i, refreshed.nodes[i].(progress := WrapperDone(g.nodes[i].value)))
  }

  /** Not still fresh: `stale` if it was `maybe-stale`, `beforeBuild`, status `ok`, and `build` is called. */
  function CallBuild(g: Graph, i: nat): (r: Graph)
    requires GraphOk(g) && i < |g.nodes|
    ensures GraphOk(r) && OnlyAt(g, r, i)
    ensures r.nodes[i].status == Ok && r.nodes[i].progress == AwaitingBuild
    ensures r.nodes[i].freshness == if g.nodes[i].freshness == MaybeStale then Stale else g.nodes[i].freshness
  {
    var checked := if g.nodes[i].freshness == MaybeStale then SetState(g, i, Stale) else g;
    var recorded := BeforeBuild(checked, i);
    Replace(recorded, i, recorded.nodes[i].(status := Ok, progress := AwaitingBuild))
  }

  /**
   * `get()` on object i: a fresh target answers with its value; one with an
   * active build hands out that build; otherwise `runBuild` starts, and
   * `buildWrapper` runs up to its first await: it calls `get()` on its
   * first input, or, with no inputs, goes on as `AfterInputs` says.
   */
  function GetStep(g: Graph, i: nat): (r: Step<Pending>)
    requires GraphOk(g) && i < |g.nodes|
    decreases i, 1
    ensures GraphOk(r.state) && BuildKeeps(g, r.state, i + 1)
    ensures r.value == if g.nodes[i].freshness == Fresh then Ready(g.nodes[i].value) else Waiting(i)
    ensures g.nodes[i].freshness == Fresh || g.nodes[i].progress != Idle ==> r.state == g
    ensures r.state.nodes[i].progress != Idle || g.nodes[i].freshness == Fresh
  {
    var n := g.nodes[i];
    if n.freshness == Fresh then Step(g, Ready(n.value))
    else if n.progress != Idle then Step(g, Waiting(i))
    else if |n.inputs| > 0 then Step(AwaitInput(g, i, 0), Waiting(i))
    else Step(AfterInputs(g, i), Waiting(i))
  }

  /** `buildWrapper` calls `get()` on its k-th input and awaits it. */
  function AwaitInput(g: Graph, i: nat, k: nat): (r: Graph)
    requires GraphOk(g) && i < |g.nodes| && k < |g.nodes[i].inputs|
    decreases i, 0
    ensures GraphOk(r) && BuildKeeps(g, r, i + 1)
    ensures r.nodes[i] == g.nodes[i].(progress := AwaitingInput(k))
  {
    var n := g.nodes[i];
    assert NodeOk(n, i, |g.nodes|);
    var input := GetStep(g, n.inputs[k].1);
    Replace(input.state, i, n.(progress := AwaitingInput(k)))
  }

  /** The second of two `get()` calls changes nothing more: callers share the one active build. */
  lemma GetShared(g: Graph, i: nat)
    requires GraphOk(g) && i < |g.nodes|
    ensures var first := GetStep(g, i);
      GetStep(first.state, i).state == first.state &&
      (g.nodes[i].freshness != Fresh && first.state.nodes[i].freshness != Fresh ==> GetStep(first.state, i).value == Waiting(i))
  {
  }

  /**
   * The k-th input's `get()` has settled with `result`: null ends the
   * wrapper with status `skip` and null, without building; otherwise the
   * next input's `get()` is called, or, after the last one, the wrapper
   * goes on as `AfterInputs` says.
   */
  function InputArrivedStep(g: Graph, i: nat, result: Option<Output>): (r: Graph)
    requires GraphOk(g) && i < |g.nodes| && g.nodes[i].progress.AwaitingInput?
    ensures GraphOk(r) && BuildKeeps(g, r, i + 1) && r.nodes[i].progress != Idle
  {
    var n := g.nodes[i];
    if result.None? then Replace(g, i, n.(status := Skip, progress := WrapperDone(None)))
    else if n.progress.k + 1 < |n.inputs| then AwaitInput(g, i, n.progress.k + 1)
    else AfterInputs(g, i)
  }

  /** A null input skips the build: status `skip`, the wrapper's result is null. */
  lemma NullInputSkips(g: Graph, i: nat)
    requires GraphOk(g) && i < |g.nodes| && g.nodes[i].progress.AwaitingInput?
    ensures var r := InputArrivedStep(g, i, None);
      r.nodes[i] == g.nodes[i].(status := Skip, progress := WrapperDone(None)) &&
      forall j :: 0 <= j < |g.nodes| && j != i ==> r.nodes[j] == g.nodes[j]
  {
  }

  /**
   * A `maybe-stale` target still fresh when its inputs have arrived
   * becomes `fresh` and keeps its value, and `build` is not called.
   */
  lemma StillFreshSkipsBuild(g: Graph, i: nat, result: Output)
    requires GraphOk(g) && i < |g.nodes| && g.nodes[i].progress.AwaitingInput? && g.nodes[i].progress.k + 1 == |g.nodes[i].inputs|
    requires g.nodes[i].freshness == MaybeStale && StillFresh(g, i)
    ensures var r := InputArrivedStep(g, i, Some(result));
      r.nodes[i] == g.nodes[i].(freshness := Fresh, progress := WrapperDone(g.nodes[i].value)) &&
      r.staleNotices == g.staleNotices
  {
  }

  /** What the subclass's `build` did: whether it called `warn`, and what it returned or that it threw. */
  datatype BuildOutcome = BuildOutcome(warned: bool, outcome: Completion<Option<Output>, string>)

  /**
   * `build` has settled: a throw sets the status to `fail` and makes the
   * result null; otherwise `warn` has set it to `warn`, and the result is
   * what `build` returned.
   */
  function BuildReturnedStep(g: Graph, i: nat, o: BuildOutcome): (r: Graph)
    requires GraphOk(g) && i < |g.nodes| && g.nodes[i].progress.AwaitingBuild?
    ensures GraphOk(r)
    ensures var n := g.nodes[i];
      r.nodes == g.nodes[i := n.(
        status := if o.outcome.Threw? then Fail else if o.warned then Warn else n.status,
        progress := WrapperDone(if o.outcome.Threw? then None else o.outcome.value))]
    ensures r.instancesByKey == g.instancesByKey && r.staleNotices == g.staleNotices
  {
    var n := g.nodes[i];
    Replace(g, i, n.(status := if o.outcome.Threw? then Fail else if o.warned then Warn else n.status,
                     progress := WrapperDone(if o.outcome.Threw? then None else o.outcome.value)))
  }

  /**
   * `runBuild` once the wrapper returned `result`: the version goes up and
   * the value is replaced exactly when the result is not identical to the
   * value; the target becomes `fresh` and its active build is cleared; the
   * build's promise settles with the value.
   */
  function RunBuildEndStep(g: Graph, i: nat): (r: Step<Option<Output>>)
    requires GraphOk(g) && i < |g.nodes| && g.nodes[i].progress.WrapperDone?
    ensures GraphOk(r.state)
  {
    var n := g.nodes[i];
    var newValue := n.progress.result;
    var changed := !Identical(n.value, newValue);
    var updated := if changed then n.(version := n.version + 1, value := newValue) else n;
    var stored := Replace(g, i, updated.(progress := Idle));
    var refreshed := SetState(stored, i, Fresh);
    Step(refreshed, refreshed.nodes[i].value)
  }

  /**
   * The end of a build: the value returned is the wrapper's result, the
   * version moves by one exactly when that result was not identical to
   * the old value, and the target is `fresh` with no active build.
   */
  lemma RunBuildEnds(g: Graph, i: nat)
    requires GraphOk(g) && i < |g.nodes| && g.nodes[i].progress.WrapperDone?
    ensures var r := RunBuildEndStep(g, i);
      var n := g.nodes[i];
      r.value == n.progress.result &&
      r.state.nodes[i] == n.(version := if Identical(n.value, n.progress.result) then n.version else n.version + 1,
                             value := n.progress.result, freshness := Fresh, progress := Idle) &&
      (forall j :: 0 <= j < |g.nodes| && j != i ==> r.state.nodes[j] == g.nodes[j]) &&
      r.state.staleNotices == g.staleNotices && r.state.instancesByKey == g.instancesByKey
  {
  }

  // ---- the arena, updated in place ----

  class TargetArena {
    var nodes: seq<Node>
    var instancesByKey: map<string, nat>
    /** The objects whose `onStale` hook ran, in order. */
    var staleNotices: seq<nat>

    function State(): Graph
      reads this
    {
      Graph(nodes, instancesByKey, staleNotices)
    }

    predicate Valid()
      reads this
    {
      GraphOk(State())
    }

    /** The module starts with no targets. */
    constructor()
      ensures State() == Graph([], map[], [])
      ensures Valid()
    {
      nodes, instancesByKey, staleNotices := [], map[], [];
    }

    /** `new Target(key, inputTargets)`, or `new PureTarget(...)` when `pure`. */
    method Construct(key: string, inputs: seq<(string, nat)>, pure: bool) returns (r: Completion<nat, string>)
      requires Valid() && InputsOk(State(), inputs)
      modifies this
      ensures Step(State(), r) == ConstructStep(old(State()), key, inputs, pure)
      ensures Valid()
    {
      var id := |nodes|;
      ConstructKeepsOk(State(), key, inputs, pure);
      JoinDependents(inputs, id);
      nodes := nodes + [Created(key, inputs, pure)];
      if key in instancesByKey {
        r := Threw(DuplicateKeyMessage(key));
      } else {
        instancesByKey := instancesByKey[key := id];
        r := Returned(id);
      }
    }

    /** The constructor's loop adding the new object `id` to each input's dependents. */
    method JoinDependents(inputs: seq<(string, nat)>, id: nat)
      requires forall k :: 0 <= k < |inputs| ==> inputs[k].1 < |nodes|
      modifies this
      ensures nodes == AddDependent(old(nodes), InputTargets(inputs), id)
      ensures instancesByKey == old(instancesByKey) && staleNotices == old(staleNotices)
    {
      ghost var targets := InputTargets(inputs);
      var k := 0;
      while k < |inputs|
        invariant 0 <= k <= |inputs| && |nodes| == |old(nodes)|
        invariant nodes == AddDependent(old(nodes), targets[..k], id)
        invariant instancesByKey == old(instancesByKey) && staleNotices == old(staleNotices)
      {
        assert targets[..k + 1][..k] == targets[..k];
        var t := inputs[k].1;
        nodes := nodes[t := nodes[t].(dependents := SetAdd(nodes[t].dependents, id))];
        k := k + 1;
      }
      assert targets[..|inputs|] == targets;
    }

    /** `setState(state)`. */
    method SetFreshness(i: nat, state: Freshness)
      requires Valid() && i < |nodes|
      modifies this
      ensures State() == SetState(old(State()), i, state)
      ensures Valid()
    {
      var actual := if state == MaybeStale && !nodes[i].pure then Stale else state;
      nodes := nodes[i := nodes[i].(freshness := actual)];
      if actual == Stale {
        staleNotices := staleNotices + [i];
      }
    }

    /** `markStale()`. */
    method MarkStaleAt(i: nat)
      requires Valid() && i < |nodes|
      modifies this
      decreases FreshCount(nodes), 0
      ensures State() == MarkStale(old(State()), i)
      ensures Valid()
    {
      if nodes[i].freshness != Fresh {
        return;
      }
      ghost var g0 := State();
      MarkOneKeeps(g0, i);
      SetFreshness(i, MaybeStale);
      MarkDependents(nodes[i].dependents);
    }

    /** The loop over the dependents of a target `markStale` has just marked. */
    method MarkDependents(ds: seq<nat>)
      requires Valid() && forall k :: 0 <= k < |ds| ==> ds[k] < |nodes|
      modifies this
      decreases FreshCount(nodes), 1
      ensures State() == MarkEach(old(State()), ds)
      ensures Valid()
    {
      var k := 0;
      while k < |ds|
        invariant 0 <= k <= |ds| && Valid() && |nodes| == |old(nodes)|
        invariant FreshCount(nodes) <= FreshCount(old(nodes))
        invariant MarkEach(State(), ds[k..]) == MarkEach(old(State()), ds)
      {
        assert ds[k..][1..] == ds[k + 1..];
        MarkStaleAt(ds[k]);
        k := k + 1;
      }
    }

    /** `get()`. */
    method Get(i: nat) returns (p: Pending)
      requires Valid() && i < |nodes|
      modifies this
      decreases i, 1
      ensures Step(State(), p) == GetStep(old(State()), i)
      ensures Valid()
    {
      var n := nodes[i];
      if n.freshness == Fresh {
        p := Ready(n.value);
      } else if n.progress != Idle {
        p := Waiting(i);
      } else if |n.inputs| > 0 {
        AwaitInputAt(i, 0);
        p := Waiting(i);
      } else {
        ContinueAfterInputs(i);
        p := Waiting(i);
      }
    }

    /** `const result = await target.get()` on the k-th input. */
    method AwaitInputAt(i: nat, k: nat)
      requires Valid() && i < |nodes| && k < |nodes[i].inputs|
      modifies this
      decreases i, 0
      ensures State() == AwaitInput(old(State()), i, k)
      ensures Valid()
    {
      var n := nodes[i];
      assert NodeOk(n, i, |nodes|);
      var _ := Get(n.inputs[k].1);
      nodes := nodes[i := n.(progress := AwaitingInput(k))];
    }

    /** The rest of `buildWrapper` once its inputs have arrived. */
    method ContinueAfterInputs(i: nat)
      requires Valid() && i < |nodes|
      modifies this
      ensures State() == AfterInputs(old(State()), i)
      ensures Valid()
    {
      if nodes[i].freshness == MaybeStale && StillFresh(State(), i) {
        var value := nodes[i].value;
        SetFreshness(i, Fresh);
        nodes := nodes[i := nodes[i].(progress := WrapperDone(value))];
      } else {
        if nodes[i].freshness == MaybeStale {
          SetFreshness(i, Stale);
        }
        RecordInputVersions(i);
        nodes := nodes[i := nodes[i].(status := Ok, progress := AwaitingBuild)];
      }
    }

    /** `beforeBuild()`: for a `PureTarget`, the loop recording each input's version. */
    method RecordInputVersions(i: nat)
      requires Valid() && i < |nodes|
      modifies this
      ensures State() == BeforeBuild(old(State()), i)
      ensures Valid()
    {
      var n := nodes[i];
      if !n.pure {
        return;
      }
      assert NodeOk(n, i, |nodes|);
      var cached := n.cachedInputVersions;
      var k := 0;
      while k < |n.inputs|
        invariant 0 <= k <= |n.inputs|
        invariant cached == RecordVersions(nodes, n.cachedInputVersions, n.inputs[..k])
      {
        assert n.inputs[..k + 1][..k] == n.inputs[..k];
        cached := cached[n.inputs[k].0 := nodes[n.inputs[k].1].version];
        k := k + 1;
      }
      assert n.inputs[..|n.inputs|] == n.inputs;
      nodes := nodes[i := n.(cachedInputVersions := cached)];
    }

    /** The k-th input's `get()` has settled with `result`. */
    method InputArrived(i: nat, result: Option<Output>)
      requires Valid() && i < |nodes| && nodes[i].progress.AwaitingInput?
      modifies this
      ensures State() == InputArrivedStep(old(State()), i, result)
      ensures Valid()
    {
      var n := nodes[i];
      if result.None? {
        nodes := nodes[i := n.(status := Skip, progress := WrapperDone(None))];
      } else if n.progress.k + 1 < |n.inputs| {
        AwaitInputAt(i, n.progress.k + 1);
      } else {
        ContinueAfterInputs(i);
      }
    }

    /** The subclass's `build` has settled as `o` says. */
    method BuildReturned(i: nat, o: BuildOutcome)
      requires Valid() && i < |nodes| && nodes[i].progress.AwaitingBuild?
      modifies this
      ensures State() == BuildReturnedStep(old(State()), i, o)
      ensures Valid()
    {
      var n := nodes[i];
      var status := if o.outcome.Threw? then Fail else if o.warned then Warn else n.status;
      nodes := nodes[i := n.(status := status, progress := WrapperDone(if o.outcome.Threw? then None else o.outcome.value))];
    }

    /** `runBuild` after `await this.buildWrapper()`. */
    method RunBuildEnd(i: nat) returns (value: Option<Output>)
      requires Valid() && i < |nodes| && nodes[i].progress.WrapperDone?
      modifies this
      ensures Step(State(), value) == RunBuildEndStep(old(State()), i)
      ensures Valid()
    {
      var n := nodes[i];
      var newValue := n.progress.result;
      if !Identical(n.value, newValue) {
        n := n.(version := n.version + 1, value := newValue);
      }
      nodes := nodes[i := n.(progress := Idle)];
      SetFreshness(i, Fresh);
      value := nodes[i].value;
    }
  }
}
