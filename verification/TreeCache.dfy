/** The registry of mounts and the reference-counted cache of their trees, as a state machine: each
    step is one critical section of the source's mutex, or a build outside it. The interleavings of
    concurrent create, unmount and unmountAll calls are its runs. */
module TreeCache {
  import opened CacheKey

  type Key = string
  type MountId = string
  type ThreadId = nat
  type Layers = seq<LayerRef>

  /** A built tree: which build made it, and what it contains. */
  datatype Built<T> = Built(serial: nat, content: T)

  datatype Cached<T> = Cached(tree: Built<T>, refs: int)

  datatype Mount<T> = Mount(layers: Layers, key: Key, tree: Built<T>)

  type Trees<T> = map<Key, Cached<T>>

  // ---------------------------------------------------------------- the cache

  /** Takes one more reference to a cached tree. */
  function Acquired<T>(trees: Trees<T>, key: Key): Trees<T>
    requires key in trees
  {
    trees[key := Cached(trees[key].tree, trees[key].refs + 1)]
  }

  /** After a build: joins a tree that was cached meanwhile, or caches the new one. */
  function JoinedOrInstalled<T>(trees: Trees<T>, key: Key, tree: Built<T>): Trees<T> {
    if key in trees then Acquired(trees, key) else trees[key := Cached(tree, 1)]
  }

  /** Gives one reference back; the last one removes the tree. */
  function Released<T>(trees: Trees<T>, key: Key): Trees<T> {
    if key !in trees then trees
    else if trees[key].refs - 1 == 0 then trees - {key}
    else trees[key := Cached(trees[key].tree, trees[key].refs - 1)]
  }

  // ---------------------------------------------------------------- the state machine

  /** Where a running call stands between two critical sections. */
  datatype Phase<T> =
    | Building(layers: Layers)
    | Finished(layers: Layers, built: Built<T>)
    | Holding(layers: Layers, key: Key, tree: Built<T>)
    | Detached(batch: map<MountId, Mount<T>>)

  /** The manager, the calls in flight, and a record of the ids issued and released. */
  datatype Sys<T> = Sys(mounts: map<MountId, Mount<T>>, trees: Trees<T>, threads: map<ThreadId, Phase<T>>,
                        builds: nat, issued: set<MountId>, released: set<MountId>)

  datatype Step<T> =
    | StartCreate(t: ThreadId, layers: Layers)   // look the key up
    | BuildTree(t: ThreadId, content: T)         // outside the lock
    | BuildFails(t: ThreadId)
    | Join(t: ThreadId)                          // lock again after the build
    | CreateFails(t: ThreadId)                   // any later error: the deferred release
    | Register(t: ThreadId, id: MountId)
    | TakeOne(t: ThreadId, id: MountId)          // unmount
    | TakeAll(t: ThreadId)                       // unmountAll
    | Release(t: ThreadId, id: MountId)          // give a detached mount's tree back

  function Init<T>(): Sys<T> {
    Sys(map[], map[], map[], 0, {}, {})
  }

  ghost predicate LayersOk(layers: Layers) {
    forall l :: l in layers ==> RefOk(l)
  }

  ghost predicate Enabled<T>(s: Sys<T>, step: Step<T>) {
    match step
    case StartCreate(t, layers) => t !in s.threads && LayersOk(layers)
    case BuildTree(t, _) => t in s.threads && s.threads[t].Building?
    case BuildFails(t) => t in s.threads && s.threads[t].Building?
    case Join(t) => t in s.threads && s.threads[t].Finished?
    case CreateFails(t) => t in s.threads && s.threads[t].Holding?
    case Register(t, id) => t in s.threads && s.threads[t].Holding? && id !in s.issued
    case TakeOne(t, id) => t !in s.threads && id in s.mounts
    case TakeAll(t) => t !in s.threads
    case Release(t, id) => t in s.threads && s.threads[t].Detached? && id in s.threads[t].batch
  }

  /** A build yields what a merge of the layers is meant to give. */
  ghost predicate Sound<T>(s: Sys<T>, step: Step<T>, good: (Layers, T) -> bool)
    requires Enabled(s, step)
  {
    step.BuildTree? ==> good(s.threads[step.t].layers, step.content)
  }

  ghost function Next<T>(s: Sys<T>, step: Step<T>): Sys<T>
    requires Enabled(s, step)
  {
    match step
    case StartCreate(t, layers) =>
      var key := KeyOf(layers);
      if key in s.trees
      then s.(trees := Acquired(s.trees, key), threads := s.threads[t := Holding(layers, key, s.trees[key].tree)])
      else s.(threads := s.threads[t := Building(layers)])
    case BuildTree(t, content) =>
      var layers := s.threads[t].layers;
      s.(threads := s.threads[t := Finished(layers, Built(s.builds, content))], builds := s.builds + 1)
    case BuildFails(t) => s.(threads := s.threads - {t})
    case Join(t) =>
      var Finished(layers, built) := s.threads[t];
      var key := KeyOf(layers);
      var trees := JoinedOrInstalled(s.trees, key, built);
      s.(trees := trees, threads := s.threads[t := Holding(layers, key, trees[key].tree)])
    case CreateFails(t) =>
      s.(trees := Released(s.trees, s.threads[t].key), threads := s.threads - {t})
    case Register(t, id) =>
      var Holding(layers, key, tree) := s.threads[t];
      s.(mounts := s.mounts[id := Mount(layers, key, tree)], threads := s.threads - {t}, issued := s.issued + {id})
    case TakeOne(t, id) =>
      s.(mounts := s.mounts - {id}, threads := s.threads[t := Detached(map[id := s.mounts[id]])])
    case TakeAll(t) =>
      s.(mounts := map[], threads := s.threads[t := Detached(s.mounts)])
    case Release(t, id) =>
      var batch := s.threads[t].batch;
      s.(trees := Released(s.trees, batch[id].key), threads := s.threads[t := Detached(batch - {id})],
         released := s.released + {id})
  }

  // ---------------------------------------------------------------- who holds a tree

  datatype Holder = Mounted(id: MountId) | InFlight(t: ThreadId) | Leaving(t: ThreadId, id: MountId)

  predicate IsHolder<T>(s: Sys<T>, h: Holder) {
    match h
    case Mounted(id) => id in s.mounts
    case InFlight(t) => t in s.threads && s.threads[t].Holding?
    case Leaving(t, id) => t in s.threads && s.threads[t].Detached? && id in s.threads[t].batch
  }

  function Held<T>(s: Sys<T>, h: Holder): Mount<T>
    requires IsHolder(s, h)
  {
    match h
    case Mounted(id) => s.mounts[id]
    case InFlight(t) => Mount(s.threads[t].layers, s.threads[t].key, s.threads[t].tree)
    case Leaving(t, id) => s.threads[t].batch[id]
  }

  /** All holders of a key: registered mounts, creates in flight, mounts detached but not yet released. */
  function Holders<T>(s: Sys<T>, key: Key): set<Holder> {
    (set id | id in s.mounts && s.mounts[id].key == key :: Mounted(id)) +
    (set t | t in s.threads && s.threads[t].Holding? && s.threads[t].key == key :: InFlight(t)) +
    (set t, id | t in s.threads && s.threads[t].Detached? && id in s.threads[t].batch
                 && s.threads[t].batch[id].key == key
      :: Leaving(t, id))
  }

  lemma HoldersAt<T>(s: Sys<T>, key: Key, h: Holder)
    ensures h in Holders(s, key) <==> IsHolder(s, h) && Held(s, h).key == key
  {
  }

  /** The reference count of a key; no entry is none. */
  function Refs<T>(trees: Trees<T>, key: Key): int {
    if key in trees then trees[key].refs else 0
  }

  predicate CountOk<T>(s: Sys<T>, key: Key) {
    |Holders(s, key)| == Refs(s.trees, key)
  }

  ghost predicate CountsMatch<T>(s: Sys<T>) {
    forall key :: CountOk(s, key)
  }

  ghost predicate HoldersAgree<T>(s: Sys<T>, good: (Layers, T) -> bool) {
    && (forall h :: IsHolder(s, h) ==>
          var m := Held(s, h);
          && LayersOk(m.layers) && m.key == KeyOf(m.layers) && m.key in s.trees
          && m.tree == s.trees[m.key].tree && good(m.layers, m.tree.content))
    && (forall t :: t in s.threads && s.threads[t].Finished? ==>
          good(s.threads[t].layers, s.threads[t].built.content))
    && (forall t :: t in s.threads && (s.threads[t].Building? || s.threads[t].Finished?) ==>
          LayersOk(s.threads[t].layers))
  }

  /** What a thread still has to release. */
  function Batch<T>(s: Sys<T>, t: ThreadId): set<MountId> {
    if t in s.threads && s.threads[t].Detached? then s.threads[t].batch.Keys else {}
  }

  predicate BatchOk<T>(s: Sys<T>, t: ThreadId) {
    Batch(s, t) !! s.mounts.Keys && Batch(s, t) !! s.released && Batch(s, t) <= s.issued
  }

  predicate BatchesApart<T>(s: Sys<T>, t: ThreadId, u: ThreadId) {
    t != u ==> Batch(s, t) !! Batch(s, u)
  }

  /** The id is registered, released, or in some thread's batch. */
  ghost predicate IsSomewhere<T>(s: Sys<T>, id: MountId) {
    id in s.mounts || id in s.released || exists t :: id in Batch(s, t)
  }

  /** Every id issued is in exactly one place. */
  ghost predicate IdsAccounted<T>(s: Sys<T>) {
    && s.mounts.Keys !! s.released && s.mounts.Keys <= s.issued && s.released <= s.issued
    && (forall t :: BatchOk(s, t))
    && (forall t, u :: BatchesApart(s, t, u))
    && (forall id :: id in s.issued ==> IsSomewhere(s, id))
  }

  ghost predicate Inv<T>(s: Sys<T>, good: (Layers, T) -> bool) {
    && CountsMatch(s) && HoldersAgree(s, good) && IdsAccounted(s)
    && (forall key :: key in s.trees ==> s.trees[key].refs > 0)
  }

  // ---------------------------------------------------------------- how a step moves the holders

  /** The same holders, with the same trees. */
  ghost predicate SameHolders<T>(s: Sys<T>, t: Sys<T>) {
    forall h :: (IsHolder(t, h) <==> IsHolder(s, h)) && (IsHolder(s, h) ==> Held(t, h) == Held(s, h))
  }

  /** Exactly one more holder. */
  ghost predicate OneMore<T>(s: Sys<T>, t: Sys<T>, h: Holder) {
    && !IsHolder(s, h) && IsHolder(t, h)
    && (forall g :: g != h ==> (IsHolder(t, g) <==> IsHolder(s, g)) && (IsHolder(s, g) ==> Held(t, g) == Held(s, g)))
  }

  lemma SameCounts<T>(s: Sys<T>, t: Sys<T>, key: Key)
    requires SameHolders(s, t)
    ensures |Holders(t, key)| == |Holders(s, key)|
  {
    forall h
      ensures h in Holders(t, key) <==> h in Holders(s, key)
    {
      HoldersAt(s, key, h);
      HoldersAt(t, key, h);
    }
    assert Holders(t, key) == Holders(s, key);
  }

  lemma OneMoreSize(a: set<Holder>, b: set<Holder>, h: Holder, counts: bool)
    requires h !in a && forall g :: g in b <==> g in a || (g == h && counts)
    ensures |b| == |a| + if counts then 1 else 0
  {
    assert b == a + if counts then {h} else {};
  }

  lemma OneMoreCounts<T>(s: Sys<T>, t: Sys<T>, h: Holder, key: Key)
    requires OneMore(s, t, h)
    ensures |Holders(t, key)| == |Holders(s, key)| + if Held(t, h).key == key then 1 else 0
  {
    forall g
      ensures g in Holders(t, key) <==> g in Holders(s, key) || (g == h && Held(t, h).key == key)
    {
      HoldersAt(s, key, g);
      HoldersAt(t, key, g);
    }
    HoldersAt(s, key, h);
    OneMoreSize(Holders(s, key), Holders(t, key), h, Held(t, h).key == key);
  }

  /** Images under the two ways of holding a mount are as large as the set of ids. */
  lemma {:induction false} ImageSizes(ids: set<MountId>, t: ThreadId)
    ensures |set id | id in ids :: Mounted(id)| == |ids|
    ensures |set id | id in ids :: Leaving(t, id)| == |ids|
  {
    if ids != {} {
      var id :| id in ids;
      var rest := ids - {id};
      ImageSizes(rest, t);
      assert (set i | i in ids :: Mounted(i)) == (set i | i in rest :: Mounted(i)) + {Mounted(id)};
      assert (set i | i in ids :: Leaving(t, i)) == (set i | i in rest :: Leaving(t, i)) + {Leaving(t, id)};
    }
  }

  /** Exchanging all mounted holders for leaving ones keeps the size. */
  lemma ExchangeSize(a: set<Holder>, b: set<Holder>, ids: set<MountId>, t: ThreadId)
    requires forall h :: h in b <==> if h.Mounted? then false else h in a || (h.Leaving? && h.t == t && h.id in ids)
    requires forall id :: Mounted(id) in a <==> id in ids
    requires forall id :: Leaving(t, id) !in a
    ensures |b| == |a|
  {
    var before, after := set id | id in ids :: Mounted(id), set id | id in ids :: Leaving(t, id);
    var others := set h | h in a && !h.Mounted?;
    assert a == before + others;
    assert b == after + others;
    ImageSizes(ids, t);
  }

  /** Emptying the registry turns every registered mount into a leaving one. */
  lemma TakeAllCounts<T>(s: Sys<T>, t: ThreadId, key: Key)
    requires t !in s.threads
    ensures |Holders(Next(s, TakeAll(t)), key)| == |Holders(s, key)|
  {
    var s' := Next(s, TakeAll(t));
    var ids := set id | id in s.mounts && s.mounts[id].key == key;
    forall h
      ensures h in Holders(s', key) <==>
              if h.Mounted? then false else h in Holders(s, key) || (h.Leaving? && h.t == t && h.id in ids)
    {
      HoldersAt(s, key, h);
      HoldersAt(s', key, h);
    }
    forall id
      ensures Mounted(id) in Holders(s, key) <==> id in ids
      ensures Leaving(t, id) !in Holders(s, key)
    {
      HoldersAt(s, key, Mounted(id));
      HoldersAt(s, key, Leaving(t, id));
    }
    ExchangeSize(Holders(s, key), Holders(s', key), ids, t);
  }

  ghost predicate RefsPositive<T>(s: Sys<T>) {
    forall key :: key in s.trees ==> s.trees[key].refs > 0
  }

  /** A holder's key is cached, with at least one reference. */
  lemma HolderIsCounted<T>(s: Sys<T>, h: Holder)
    requires CountsMatch(s) && IsHolder(s, h)
    ensures Held(s, h).key in s.trees && s.trees[Held(s, h).key].refs >= 1
  {
    var key := Held(s, h).key;
    HoldersAt(s, key, h);
    assert CountOk(s, key);
    assert Holders(s, key) != {};
  }

  /** A cached tree has a holder. */
  lemma CachedIsHeld<T>(s: Sys<T>, key: Key) returns (h: Holder)
    requires CountsMatch(s) && RefsPositive(s) && key in s.trees
    ensures IsHolder(s, h) && Held(s, h).key == key
  {
    assert CountOk(s, key);
    assert Holders(s, key) != {};
    h :| h in Holders(s, key);
    HoldersAt(s, key, h);
  }

  /** Counts that follow the holders stay equal to the reference counts. */
  lemma GrowRefs<T>(trees: Trees<T>, held: Key, tree: Built<T>, n: Key -> int, n': Key -> int)
    requires forall key :: n(key) == Refs(trees, key)
    requires forall key :: n'(key) == n(key) + if key == held then 1 else 0
    requires forall key :: key in trees ==> trees[key].refs > 0
    ensures var t := JoinedOrInstalled(trees, held, tree);
            (forall key :: n'(key) == Refs(t, key)) && forall key :: key in t ==> t[key].refs > 0
  {
  }

  lemma ShrinkRefs<T>(trees: Trees<T>, held: Key, n: Key -> int, n': Key -> int)
    requires forall key :: n(key) == Refs(trees, key)
    requires forall key :: n'(key) == n(key) - if key == held then 1 else 0
    requires forall key :: key in trees ==> trees[key].refs > 0
    requires n(held) > 0
    ensures var t := Released(trees, held);
            (forall key :: n'(key) == Refs(t, key)) && forall key :: key in t ==> t[key].refs > 0
  {
  }

  function Count<T>(s: Sys<T>): Key -> int {
    key => |Holders(s, key)|
  }

  lemma CountsAre<T>(s: Sys<T>)
    ensures CountsMatch(s) <==> forall key :: Count(s)(key) == Refs(s.trees, key)
  {
    if CountsMatch(s) {
      forall key ensures Count(s)(key) == Refs(s.trees, key) { assert CountOk(s, key); }
    }
    if forall key :: Count(s)(key) == Refs(s.trees, key) {
      forall key ensures CountOk(s, key) { assert Count(s)(key) == Refs(s.trees, key); }
    }
  }

  lemma CountsDiffer<T>(s: Sys<T>, t: Sys<T>, h: Holder)
    requires OneMore(s, t, h)
    ensures forall key :: Count(t)(key) == Count(s)(key) + if key == Held(t, h).key then 1 else 0
  {
    forall key
      ensures Count(t)(key) == Count(s)(key) + if key == Held(t, h).key then 1 else 0
    {
      OneMoreCounts(s, t, h, key);
    }
  }

  lemma CountsGrow<T>(s: Sys<T>, t: Sys<T>, h: Holder, tree: Built<T>)
    requires CountsMatch(s) && RefsPositive(s) && OneMore(s, t, h)
    requires t.trees == JoinedOrInstalled(s.trees, Held(t, h).key, tree)
    ensures CountsMatch(t) && RefsPositive(t)
  {
    CountsAre(s);
    CountsAre(t);
    CountsDiffer(s, t, h);
    GrowRefs(s.trees, Held(t, h).key, tree, Count(s), Count(t));
  }

  lemma CountsShrink<T>(s: Sys<T>, t: Sys<T>, h: Holder)
    requires CountsMatch(s) && RefsPositive(s) && OneMore(t, s, h)
    requires t.trees == Released(s.trees, Held(s, h).key)
    ensures CountsMatch(t) && RefsPositive(t)
  {
    CountsAre(s);
    CountsAre(t);
    CountsDiffer(t, s, h);
    HolderIsCounted(s, h);
    ShrinkRefs(s.trees, Held(s, h).key, Count(s), Count(t));
  }

  lemma CountsStay<T>(s: Sys<T>, t: Sys<T>)
    requires CountsMatch(s) && t.trees == s.trees
    requires forall key :: |Holders(t, key)| == |Holders(s, key)|
    ensures CountsMatch(t)
  {
    forall key
      ensures CountOk(t, key)
    {
      assert CountOk(s, key);
    }
  }

  /** One holder replaced by another of the same key. */
  lemma SwapCounts<T>(s: Sys<T>, between: Sys<T>, t: Sys<T>, g: Holder, h: Holder)
    requires OneMore(between, s, g) && OneMore(between, t, h) && Held(s, g).key == Held(t, h).key
    ensures forall key :: |Holders(t, key)| == |Holders(s, key)|
  {
    forall key
      ensures |Holders(t, key)| == |Holders(s, key)|
    {
      OneMoreCounts(between, s, g, key);
      OneMoreCounts(between, t, h, key);
    }
  }

  lemma StepSameHolders<T>(s: Sys<T>, t: Sys<T>)
    requires CountsMatch(s) && SameHolders(s, t) && t.trees == s.trees
    ensures CountsMatch(t)
  {
    forall key
      ensures |Holders(t, key)| == |Holders(s, key)|
    {
      SameCounts(s, t, key);
    }
    CountsStay(s, t);
  }

  /** Which holder a step adds, if it adds one. */
  lemma StepAdds<T>(s: Sys<T>, step: Step<T>)
    requires Enabled(s, step)
    requires step.Join? || (step.StartCreate? && KeyOf(step.layers) in s.trees)
    ensures OneMore(s, Next(s, step), InFlight(step.t))
  {
  }

  lemma StepAddsNone<T>(s: Sys<T>, step: Step<T>)
    requires Enabled(s, step)
    requires step.BuildTree? || step.BuildFails? || (step.StartCreate? && KeyOf(step.layers) !in s.trees)
    ensures SameHolders(s, Next(s, step))
  {
  }

  /** Which holder a step takes away. */
  lemma StepDrops<T>(s: Sys<T>, step: Step<T>)
    requires Enabled(s, step) && (step.CreateFails? || step.Release?)
    ensures OneMore(Next(s, step), s, if step.Release? then Leaving(step.t, step.id) else InFlight(step.t))
  {
  }

  lemma StepHandsOver<T>(s: Sys<T>, step: Step<T>)
    requires Enabled(s, step) && (step.Register? || step.TakeOne?) && s.mounts.Keys <= s.issued
    ensures var between := if step.Register? then s.(threads := s.threads - {step.t})
                           else s.(mounts := s.mounts - {step.id});
            && OneMore(between, s, if step.Register? then InFlight(step.t) else Mounted(step.id))
            && OneMore(between, Next(s, step),
                       if step.Register? then Mounted(step.id) else Leaving(step.t, step.id))
  {
  }

  /** The counts survive every step. */
  lemma StepKeepsCounts<T>(s: Sys<T>, step: Step<T>)
    requires CountsMatch(s) && RefsPositive(s) && s.mounts.Keys <= s.issued && Enabled(s, step)
    ensures CountsMatch(Next(s, step)) && RefsPositive(Next(s, step))
  {
    var s' := Next(s, step);
    match step
    case Join(t) =>
      StepAdds(s, step);
      CountsGrow(s, s', InFlight(t), s.threads[t].built);
    case StartCreate(t, layers) =>
      if KeyOf(layers) in s.trees {
        StepAdds(s, step);
        CountsGrow(s, s', InFlight(t), s.trees[KeyOf(layers)].tree);
      } else {
        StepAddsNone(s, step);
        StepSameHolders(s, s');
      }
    case BuildTree(_, _) =>
      StepAddsNone(s, step);
      StepSameHolders(s, s');
    case BuildFails(_) =>
      StepAddsNone(s, step);
      StepSameHolders(s, s');
    case CreateFails(t) =>
      StepDrops(s, step);
      CountsShrink(s, s', InFlight(t));
    case Release(t, id) =>
      StepDrops(s, step);
      CountsShrink(s, s', Leaving(t, id));
    case Register(t, id) =>
      StepHandsOver(s, step);
      SwapCounts(s, s.(threads := s.threads - {t}), s', InFlight(t), Mounted(id));
      CountsStay(s, s');
    case TakeOne(t, id) =>
      StepHandsOver(s, step);
      SwapCounts(s, s.(mounts := s.mounts - {id}), s', Mounted(id), Leaving(t, id));
      CountsStay(s, s');
    case TakeAll(t) =>
      forall key
        ensures |Holders(s', key)| == |Holders(s, key)|
      {
        TakeAllCounts(s, t, key);
      }
      CountsStay(s, s');
  }

  // ---------------------------------------------------------------- shared trees and fresh contents

  /** What is cached for a stack is what a fresh merge of that stack contains. */
  lemma CachedIsMerged<T>(s: Sys<T>, layers: Layers, good: (Layers, T) -> bool)
    requires Inv(s, good) && LayersOk(layers) && KeyOf(layers) in s.trees
    ensures good(layers, s.trees[KeyOf(layers)].tree.content)
  {
    var h := CachedIsHeld(s, KeyOf(layers));
    KeyIsInjective(Held(s, h).layers, layers);
  }

  /** Cached trees are never exchanged while they stay cached. */
  lemma TreesStay<T>(s: Sys<T>, step: Step<T>, key: Key)
    requires Enabled(s, step) && key in s.trees && key in Next(s, step).trees
    ensures Next(s, step).trees[key].tree == s.trees[key].tree
  {
  }

  ghost predicate HolderOk<T>(s: Sys<T>, m: Mount<T>, good: (Layers, T) -> bool) {
    LayersOk(m.layers) && m.key == KeyOf(m.layers) && m.key in s.trees && m.tree == s.trees[m.key].tree
    && good(m.layers, m.tree.content)
  }

  lemma NewHolderOk<T>(s: Sys<T>, step: Step<T>, good: (Layers, T) -> bool)
    requires Inv(s, good) && Enabled(s, step)
    requires step.Join? || (step.StartCreate? && KeyOf(step.layers) in s.trees)
    ensures HolderOk(Next(s, step), Held(Next(s, step), InFlight(step.t)), good)
  {
    var layers := if step.Join? then s.threads[step.t].layers else step.layers;
    if KeyOf(layers) in s.trees {
      CachedIsMerged(s, layers, good);
    }
  }

  /** A holder after a step is the one the step adds, or one that held the same tree before. */
  lemma HolderOrigin<T>(s: Sys<T>, step: Step<T>, h: Holder) returns (g: Holder)
    requires Enabled(s, step) && IsHolder(Next(s, step), h)
    requires !((step.Join? || step.StartCreate?) && h == InFlight(step.t))
    ensures IsHolder(s, g) && Held(s, g) == Held(Next(s, step), h)
  {
    g := h;
    if step.Register? && h == Mounted(step.id) {
      g := InFlight(step.t);
    } else if (step.TakeOne? || step.TakeAll?) && h.Leaving? && h.t == step.t {
      g := Mounted(h.id);
    }
  }

  lemma StepKeepsHolders<T>(s: Sys<T>, step: Step<T>, good: (Layers, T) -> bool)
    requires Inv(s, good) && Enabled(s, step) && Sound(s, step, good)
    ensures HoldersAgree(Next(s, step), good)
  {
    var s' := Next(s, step);
    StepKeepsCounts(s, step);
    forall h | IsHolder(s', h)
      ensures HolderOk(s', Held(s', h), good)
    {
      if (step.Join? || step.StartCreate?) && h == InFlight(step.t) {
        NewHolderOk(s, step, good);
      } else {
        var g := HolderOrigin(s, step, h);
        assert HolderOk(s, Held(s, g), good);
        HolderIsCounted(s', h);
        TreesStay(s, step, Held(s', h).key);
      }
    }
  }

  // ---------------------------------------------------------------- ids

  /** Where the ids are after a step. */
  lemma StepMovesIds<T>(s: Sys<T>, step: Step<T>, t: ThreadId)
    requires Enabled(s, step)
    ensures var s' := Next(s, step);
            && Batch(s', t) == (if t != step.t then Batch(s, t)
                                else if step.TakeOne? then {step.id}
                                else if step.TakeAll? then s.mounts.Keys
                                else if step.Release? then Batch(s, t) - {step.id}
                                else {})
            && ((step.TakeOne? || step.TakeAll? || step.StartCreate?) && t == step.t ==> Batch(s, t) == {})
            && (step.Release? && t == step.t ==> step.id in Batch(s, t))
            && (!step.TakeOne? && !step.TakeAll? && !step.Release? && t == step.t ==> Batch(s, t) == {})
  {
  }

  lemma StepKeepsBatches<T>(s: Sys<T>, step: Step<T>)
    requires IdsAccounted(s) && Enabled(s, step)
    ensures forall t :: BatchOk(Next(s, step), t)
    ensures forall t, u :: BatchesApart(Next(s, step), t, u)
  {
    var s' := Next(s, step);
    forall t
      ensures BatchOk(s', t)
    {
      StepMovesIds(s, step, t);
      assert BatchOk(s, t) && BatchesApart(s, t, step.t) && BatchOk(s, step.t);
      StepMovesIds(s, step, step.t);
    }
    forall t, u
      ensures BatchesApart(s', t, u)
    {
      StepMovesIds(s, step, t);
      StepMovesIds(s, step, u);
      assert BatchesApart(s, t, u) && BatchOk(s, t) && BatchOk(s, u);
    }
  }

  lemma StepKeepsIds<T>(s: Sys<T>, step: Step<T>)
    requires IdsAccounted(s) && Enabled(s, step)
    ensures IdsAccounted(Next(s, step))
  {
    var s' := Next(s, step);
    StepKeepsBatches(s, step);
    StepMovesIds(s, step, step.t);
    assert BatchOk(s, step.t);
    forall id | id in s'.issued
      ensures IsSomewhere(s', id)
    {
      if id in s.issued {
        assert IsSomewhere(s, id);
        if t :| id in Batch(s, t) {
          StepMovesIds(s, step, t);
          assert id in Batch(s', t) || id in s'.released;
        } else if id in s.mounts && id !in s'.mounts {
          assert id in Batch(s', step.t);
        }
      }
    }
  }

  // ---------------------------------------------------------------- runs

  lemma InitHolds<T>(good: (Layers, T) -> bool)
    ensures Inv(Init<T>(), good)
  {
    var s := Init<T>();
    forall key
      ensures CountOk(s, key)
    {
      assert Holders(s, key) == {};
    }
  }

  lemma StepKeepsInv<T>(s: Sys<T>, step: Step<T>, good: (Layers, T) -> bool)
    requires Inv(s, good) && Enabled(s, step) && Sound(s, step, good)
    ensures Inv(Next(s, step), good)
  {
    StepKeepsCounts(s, step);
    StepKeepsHolders(s, step, good);
    StepKeepsIds(s, step);
  }

  /** Any interleaving: each state follows from the one before by an enabled step. */
  ghost predicate Run<T>(states: seq<Sys<T>>, steps: seq<Step<T>>, good: (Layers, T) -> bool) {
    && |states| == |steps| + 1 && states[0] == Init()
    && (forall i :: 0 <= i < |steps| ==>
          && Enabled(states[i], steps[i]) && Sound(states[i], steps[i], good)
          && states[i + 1] == Next(states[i], steps[i]))
  }

  /** The reference counts, the sharing and the accounting of ids hold throughout every run. */
  lemma {:induction false} EveryRunKeepsInv<T>(states: seq<Sys<T>>, steps: seq<Step<T>>, good: (Layers, T) -> bool,
                                               k: nat)
    requires Run(states, steps, good) && k <= |steps|
    ensures Inv(states[k], good)
  {
    if k == 0 {
      InitHolds(good);
    } else {
      EveryRunKeepsInv(states, steps, good, k - 1);
      StepKeepsInv(states[k - 1], steps[k - 1], good);
    }
  }

  /** Other calls than t's have taken n steps. */
  ghost predicate OthersRan<T(!new)>(s: Sys<T>, s': Sys<T>, t: ThreadId, n: nat, good: (Layers, T) -> bool)
    decreases n
  {
    if n == 0 then s' == s
    else exists step ::
           Enabled(s, step) && Sound(s, step, good) && step.t != t && OthersRan(Next(s, step), s', t, n - 1, good)
  }

  /** What other calls do keeps the invariant and does not touch the phase of this one. */
  lemma {:induction false} OthersKeep<T(!new)>(s: Sys<T>, s': Sys<T>, t: ThreadId, n: nat, good: (Layers, T) -> bool)
    requires Inv(s, good) && OthersRan(s, s', t, n, good)
    ensures Inv(s', good)
    ensures (t in s'.threads <==> t in s.threads) && (t in s.threads ==> s'.threads[t] == s.threads[t])
    decreases n
  {
    if n > 0 {
      var step :| Enabled(s, step) && Sound(s, step, good) && step.t != t &&
                  OthersRan(Next(s, step), s', t, n - 1, good);
      StepKeepsInv(s, step, good);
      OthersKeep(Next(s, step), s', t, n - 1, good);
    }
  }

  /** All holders of a key share one tree, and it is what merging their layers gives. */
  lemma HoldersShare<T>(s: Sys<T>, g: Holder, h: Holder, good: (Layers, T) -> bool)
    requires Inv(s, good) && IsHolder(s, g) && IsHolder(s, h) && Held(s, g).key == Held(s, h).key
    ensures Held(s, g).tree == Held(s, h).tree && Held(s, g).layers == Held(s, h).layers
    ensures good(Held(s, g).layers, Held(s, g).tree.content)
  {
    KeyIsInjective(Held(s, g).layers, Held(s, h).layers);
  }

  /** Giving a tree back always finds it, so no count ever drops below the holders left. */
  lemma ReleaseFindsTree<T>(s: Sys<T>, h: Holder, good: (Layers, T) -> bool)
    requires Inv(s, good) && IsHolder(s, h)
    ensures Held(s, h).key in s.trees && s.trees[Held(s, h).key].refs >= 1
  {
    HolderIsCounted(s, h);
  }

  /** A key is cached exactly while somebody holds its tree. */
  lemma CachedWhileHeld<T>(s: Sys<T>, key: Key, good: (Layers, T) -> bool)
    requires Inv(s, good)
    ensures key in s.trees <==> Holders(s, key) != {}
  {
    assert CountOk(s, key);
    if Holders(s, key) == {} {
      assert |Holders(s, key)| == 0;
    } else {
      var h :| h in Holders(s, key);
      HoldersAt(s, key, h);
      HolderIsCounted(s, h);
    }
  }

  /** When nobody holds a tree any more, the cache is empty. */
  lemma QuietCacheIsEmpty<T>(s: Sys<T>, good: (Layers, T) -> bool)
    requires Inv(s, good) && forall h :: !IsHolder(s, h)
    ensures s.trees == map[]
  {
    forall key
      ensures key !in s.trees
    {
      if key in s.trees {
        var h := CachedIsHeld(s, key);
      }
    }
  }

  /** Once nothing is mounted and nothing is leaving, every id issued has been released. */
  lemma EveryMountReleased<T>(s: Sys<T>, good: (Layers, T) -> bool)
    requires Inv(s, good) && s.mounts == map[] && forall t :: Batch(s, t) == {}
    ensures s.released == s.issued
  {
    forall id | id in s.issued
      ensures id in s.released
    {
      assert IsSomewhere(s, id);
    }
  }

  lemma {:induction false} ReleasedStays<T>(states: seq<Sys<T>>, steps: seq<Step<T>>, good: (Layers, T) -> bool,
                                            i: nat, j: nat)
    requires Run(states, steps, good) && i <= j <= |steps|
    ensures states[i].released <= states[j].released
    decreases j - i
  {
    if i < j {
      ReleasedStays(states, steps, good, i, j - 1);
      assert states[j] == Next(states[j - 1], steps[j - 1]);
    }
  }

  /** No run releases the same mount twice. */
  lemma ReleasedOnce<T>(states: seq<Sys<T>>, steps: seq<Step<T>>, good: (Layers, T) -> bool, i: nat, j: nat)
    requires Run(states, steps, good) && i < j < |steps| && steps[i].Release? && steps[j].Release?
    ensures steps[i].id != steps[j].id
  {
    ReleasedStays(states, steps, good, i + 1, j);
    assert states[i + 1] == Next(states[i], steps[i]);
    assert steps[i].id in states[j].released;
    EveryRunKeepsInv(states, steps, good, j);
    assert BatchOk(states[j], steps[j].t);
    assert steps[j].id in Batch(states[j], steps[j].t);
  }
}
