/** The mount manager. It holds the registry and the cache; a method is one critical section of the
    source's mutex, or the end of a build, and performs one step of the state machine of `TreeCache`.
    Other calls may take steps between any two of them (`OtherCalls`), so whatever the interleaving,
    `Valid` holds throughout. */
module Manager {
  import opened Wrappers
  import opened CacheKey
  import opened TreeCache

  class MountManager<T(!new)> {
    var mounts: map<MountId, Mount<T>>
    var trees: Trees<T>
    var builds: nat  // tells one built tree from another, as its address does
    ghost var sys: Sys<T>
    ghost const good: (Layers, T) -> bool

    ghost predicate Valid()
      reads this
    {
      mounts == sys.mounts && trees == sys.trees && builds == sys.builds && Inv(sys, good)
    }

    /** The call t holds the tree cached for its layers, and that is what merging them gives. */
    ghost predicate HoldsGood(t: ThreadId, layers: Layers, key: Key, tree: Built<T>)
      reads this
    {
      && t in sys.threads && sys.threads[t] == Holding(layers, key, tree)
      && key in trees && trees[key].tree == tree && good(layers, tree.content)
    }

    constructor (ghost good: (Layers, T) -> bool)
      ensures Valid() && sys == Init() && this.good == good
    {
      mounts := map[];
      trees := map[];
      builds := 0;
      sys := Init();
      this.good := good;
      new;
      InitHolds(good);
    }

    /** The lookup that starts a create. A tree found is what merging the layers gives. */
    method TryAcquire(layers: Layers, key: Key, ghost t: ThreadId) returns (tree: Option<Built<T>>)
      requires Valid() && key == KeyOf(layers) && Enabled(sys, StartCreate(t, layers))
      modifies this
      ensures Valid() && sys == Next(old(sys), StartCreate(t, layers))
      ensures tree == if key in old(trees) then Some(old(trees)[key].tree) else None
      ensures tree.None? ==> t in sys.threads && sys.threads[t] == Building(layers)
      ensures tree.Some? ==> HoldsGood(t, layers, key, tree.value)
    {
      StepKeepsInv(sys, StartCreate(t, layers), good);
      if key in trees { CachedIsMerged(sys, layers, good); }
      sys := Next(sys, StartCreate(t, layers));
      if key in trees {
        var cached := trees[key];
        trees := trees[key := cached.(refs := cached.refs + 1)];
        return Some(cached.tree);
      }
      tree := None;
    }

    /** What other calls do while this one does not hold the lock. A caller knows no more of it than
        that they take steps. */
    method OtherCalls(ghost t: ThreadId)
      requires Valid()
      modifies this
      ensures exists n :: OthersRan(old(sys), sys, t, n, good)
      ensures Valid()
    {
      assert OthersRan(sys, sys, t, 0, good);
    }

    /** Whatever other calls do, this one is where it was when it takes the lock again. */
    method Unlocked(ghost t: ThreadId)
      requires Valid()
      modifies this
      ensures Valid()
      ensures t in sys.threads <==> t in old(sys).threads
      ensures t in sys.threads ==> sys.threads[t] == old(sys).threads[t]
    {
      OtherCalls(t);
      ghost var n :| OthersRan(old(sys), sys, t, n, good);
      OthersKeep(old(sys), sys, t, n, good);
    }

    /** A build ends, outside the lock, with a new tree. */
    method FinishBuild(content: T, ghost t: ThreadId) returns (built: Built<T>)
      requires Valid() && t in sys.threads && sys.threads[t].Building? && good(sys.threads[t].layers, content)
      modifies this
      ensures Valid() && sys == Next(old(sys), BuildTree(t, content))
      ensures sys.threads[t] == Finished(old(sys).threads[t].layers, built) && built.content == content
    {
      StepKeepsInv(sys, BuildTree(t, content), good);
      sys := Next(sys, BuildTree(t, content));
      built := Built(builds, content);
      builds := builds + 1;
    }

    /** A build ends with an error. */
    ghost method FailBuild(t: ThreadId)
      requires Valid() && t in sys.threads && sys.threads[t].Building?
      modifies this`sys
      ensures Valid() && sys == Next(old(sys), BuildFails(t)) && t !in sys.threads
    {
      StepKeepsInv(sys, BuildFails(t), good);
      sys := Next(sys, BuildFails(t));
    }

    /** The second lookup, after a build: the tree that was cached meanwhile is joined and the new one
        dropped, or the new one is cached. Either way the call holds what merging its layers gives. */
    method JoinOrInstall(layers: Layers, key: Key, built: Built<T>, ghost t: ThreadId) returns (tree: Built<T>)
      requires Valid() && key == KeyOf(layers) && t in sys.threads && sys.threads[t] == Finished(layers, built)
      modifies this
      ensures Valid() && sys == Next(old(sys), Join(t))
      ensures HoldsGood(t, layers, key, tree)
      ensures tree == if key in old(trees) then old(trees)[key].tree else built
    {
      StepKeepsInv(sys, Join(t), good);
      sys := Next(sys, Join(t));
      HoldersShare(sys, InFlight(t), InFlight(t), good);
      tree := built;
      if key in trees {
        var cached := trees[key];
        trees := trees[key := cached.(refs := cached.refs + 1)];
        tree := cached.tree;
      } else {
        trees := trees[key := Cached(built, 1)];
      }
    }

    /** Gives back the tree of a failed create or of a detached mount. It is always found, and stays
        cached exactly while others hold it. */
    method ReleaseTree(key: Key, ghost step: Step<T>)
      requires Valid() && (step.CreateFails? || step.Release?) && Enabled(sys, step)
      requires key == if step.Release? then sys.threads[step.t].batch[step.id].key else sys.threads[step.t].key
      modifies this
      ensures Valid() && sys == Next(old(sys), step)
      ensures key in old(trees)
      ensures key in trees <==> Holders(sys, key) != {}
    {
      ReleaseFindsTree(sys, if step.Release? then Leaving(step.t, step.id) else InFlight(step.t), good);
      StepKeepsInv(sys, step, good);
      sys := Next(sys, step);
      CachedWhileHeld(sys, key, good);
      if key !in trees {
        return;
      }
      var tree := trees[key];
      trees := trees[key := tree.(refs := tree.refs - 1)];
      if trees[key].refs == 0 {
        trees := trees - {key};
      }
    }

    /** Registers the mount of a create that has come to its end. The tree it holds passes from the
        call to the registry: it stays cached, and its count stays the number of its holders. */
    method Register(id: MountId, m: Mount<T>, ghost t: ThreadId)
      requires Valid() && Enabled(sys, TreeCache.Register(t, id)) && m == Held(sys, InFlight(t))
      modifies this
      ensures Valid() && sys == Next(old(sys), TreeCache.Register(t, id))
      ensures IsHolder(sys, Mounted(id)) && !IsHolder(sys, InFlight(t)) && Held(sys, Mounted(id)) == m
      ensures m.key in trees && trees[m.key].tree == m.tree && trees[m.key].refs == |Holders(sys, m.key)|
    {
      StepKeepsInv(sys, TreeCache.Register(t, id), good);
      sys := Next(sys, TreeCache.Register(t, id));
      mounts := mounts[id := m];
      assert IsHolder(sys, Mounted(id)) && CountOk(sys, m.key);
    }

    /** Takes one mount out of the registry; the call now has its tree to give back. */
    method Take(id: MountId, ghost t: ThreadId) returns (m: Option<Mount<T>>)
      requires Valid() && t !in sys.threads
      modifies this
      ensures Valid()
      ensures id in old(mounts) ==> m == Some(old(mounts)[id]) && sys == Next(old(sys), TakeOne(t, id))
      ensures id !in old(mounts) ==> m == None && sys == old(sys)
    {
      m := None;
      if id in mounts {
        StepKeepsInv(sys, TakeOne(t, id), good);
        sys := Next(sys, TakeOne(t, id));
        m := Some(mounts[id]);
        mounts := mounts - {id};
      }
    }

    /** Empties the registry, entry by entry, under one lock. */
    method TakeEvery(ghost t: ThreadId) returns (all: map<MountId, Mount<T>>)
      requires Valid() && t !in sys.threads
      modifies this
      ensures Valid() && sys == Next(old(sys), TakeAll(t))
      ensures all == old(mounts) && mounts == map[]
    {
      all := map[];
      while mounts != map[]
        invariant sys == old(sys) && trees == old(trees) && builds == old(builds)
        invariant forall id :: id in old(mounts) <==> id in mounts || id in all
        invariant forall id :: id in mounts ==> mounts[id] == old(mounts)[id]
        invariant forall id :: id in all ==> all[id] == old(mounts)[id]
        decreases |mounts|
      {
        var id :| id in mounts;
        all := all[id := mounts[id]];
        mounts := mounts - {id};
      }
      StepKeepsInv(sys, TakeAll(t), good);
      sys := Next(sys, TakeAll(t));
    }
  }
}
