/** Whole sessions: mounting a stack, serving a client, committing the upper directory, and again. */
module Sessions {
  import opened Paths
  import opened Entries
  import opened TreeData
  import opened InodeTree
  import opened LayerMerge
  import opened MergedTree
  import opened LowerView
  import opened UnionState
  import opened Capture
  import opened Recommit
  import opened Commit
  import opened CommittedFiles
  import opened MountRuns
  import BlockReads
  import Fs = UnionFs

  lemma TreeFits(full: BlockStore, blockSize: int, paths: PathMap)
    requires LeavesOk(full, blockSize, paths)
    ensures Fits(TreeView(LowerOf(full, paths)))
  {
    forall p | p in paths && paths[p].PLeaf? && paths[p].link == ""
      ensures |BytesOf(full, paths[p].blocks)| <= BlockReads.MAX_INT64
    {
      NodeIsWellFormed(full, blockSize, AsNode(paths[p]));
    }
  }

  /** A file of the upper directory is seen with the bytes it has. */
  lemma FitsUpper(s: State)
    requires s.Inv() && Fits(s.View())
    ensures UpperFits(s.upper)
  {
    forall p | p in s.upper && !IsMarker(p) && s.upper[p].UFile?
      ensures |s.upper[p].data| <= BlockReads.MAX_INT64
    {
      UpperIsPlain(s, p);
      Fs.UpperIsShown(s, p);
      ViewAt(s, p);
    }
  }

  /** Layers that can be mounted together: their stores are at hand, they list files that can be
      read, and what is merged of them has plain paths. */
  ghost predicate CanMount(full: BlockStore, commits: seq<ResolvedCommit>) {
    && commits != []
    && (forall c :: c in commits ==> c.store.Some? && BlockReads.PartOf(c.store.value, full))
    && CommitsOk(full, commits, MountBlockSize(commits))
    && forall q :: q in MergeAll(Layers(commits)) ==> PlainPath(q)
  }

  /** Of such layers, a commit on top shows what the mount showed when no file lies below a non-directory. */
  ghost predicate StackOk(full: BlockStore, commits: seq<ResolvedCommit>) {
    CanMount(full, commits) && ConflictFree(MergeAll(Layers(commits)))
  }

  /** What a stack of layers is mounted as, and what it shows. */
  ghost function StackTree(commits: seq<ResolvedCommit>): PathMap {
    Fold(ListAll(Layers(commits)))
  }

  ghost function StackState(full: BlockStore, commits: seq<ResolvedCommit>): State {
    State(LowerOf(full, StackTree(commits)), map[[] := UDir])
  }

  ghost function StackView(full: BlockStore, commits: seq<ResolvedCommit>): View {
    TreeView(LowerOf(full, StackTree(commits)))
  }

  lemma StackMounts(full: BlockStore, commits: seq<ResolvedCommit>)
    requires CanMount(full, commits)
    ensures var paths := StackTree(commits);
            && AllPlain(paths) && IsTree(paths) && BlockReads.PartOf(BlockReads.MultiStore(Stores(commits)), full)
            && LeavesOk(full, MountBlockSize(commits), paths)
    ensures StackState(full, commits).Inv() && StackState(full, commits).View() == StackView(full, commits)
  {
    var files := ListAll(Layers(commits));
    ListAllEnumerates(Layers(commits));
    StackLeavesOk(full, commits);
    StoresAgree(commits, full);
    FoldIsTree(files);
    FoldIsPlain(files);
    TreeIsLowerOk(full, StackTree(commits), map[[] := UDir]);
    EmptyUpperIsOk(StackState(full, commits));
  }

  /** Without conflicts the tree is the one the merged files stand for. */
  lemma StackIsMounted(full: BlockStore, commits: seq<ResolvedCommit>)
    requires StackOk(full, commits)
    ensures StackTree(commits) == TreeOf(MergeAll(Layers(commits)))
    ensures MountedOn(full, StackState(full, commits), MergeAll(Layers(commits)))
  {
    ListAllEnumerates(Layers(commits));
    ConflictFreeFold(Layers(commits));
  }

  /** Merges, builds and mounts a stack. */
  method MountStack(commits: seq<ResolvedCommit>, writable: bool, kept: nat -> nat, ghost full: BlockStore)
    returns (fs: Fs.UnionFs)
    requires CanMount(full, commits)
    ensures fresh(fs) && fs.Valid() && fs.writable == writable && fs.full == full
    ensures fs.S() == StackState(full, commits) && fs.View() == StackView(full, commits)
    ensures fs.tree.store == BlockReads.MultiStore(Stores(commits)) && fs.paths == StackTree(commits)
  {
    StackMounts(full, commits);
    var built := BuildMerged(commits);
    fs := new Fs.UnionFs(built.value, writable, kept, map[[] := UDir], full, StackTree(commits));
  }

  lemma LongerStackOk(full: BlockStore, more: BlockStore, s: State, commits: seq<ResolvedCommit>, cap: ResolvedCommit)
    requires s.Inv() && StackOk(full, commits) && MountedOn(full, s, MergeAll(Layers(commits)))
    requires PartOfBoth(full, more, cap) && Captures(more, cap.files, s.upper) && cap.blockSize == 0
    requires forall f, blockSize :: f in cap.files ==> FileOk(more, blockSize, f)
    ensures StackOk(more, commits + [cap]) && StackView(more, commits + [cap]) == s.View()
  {
    StackMounts(full, commits);
    StackIsMounted(full, commits);
    LongerStackReady(full, more, s, commits, cap);
    LongerStackFiles(full, more, commits, cap);
    LongerStores(full, more, commits, cap);
    StackIsMounted(more, commits + [cap]);
  }

  lemma LongerStores(full: BlockStore, more: BlockStore, commits: seq<ResolvedCommit>, cap: ResolvedCommit)
    requires PartOfBoth(full, more, cap)
    requires forall c :: c in commits ==> c.store.Some? && BlockReads.PartOf(c.store.value, full)
    ensures forall c :: c in commits + [cap] ==> c.store.Some? && BlockReads.PartOf(c.store.value, more)
  {
    forall c | c in commits + [cap]
      ensures c.store.Some? && BlockReads.PartOf(c.store.value, more)
    {
      if c in commits { PartOfThrough(c.store.value, full, more); }
    }
  }

  lemma PartOfThrough(a: BlockStore, b: BlockStore, c: BlockStore)
    requires BlockReads.PartOf(a, b) && BlockReads.PartOf(b, c)
    ensures BlockReads.PartOf(a, c)
  {
  }

  predicate PartOfBoth(full: BlockStore, more: BlockStore, cap: ResolvedCommit) {
    BlockReads.PartOf(full, more) && cap.store.Some? && BlockReads.PartOf(cap.store.value, more)
  }

  /** The longer stack is again one that can be mounted, served and committed, and shows v. */
  ghost predicate Extended(full: BlockStore, commits: seq<ResolvedCommit>, more: BlockStore,
                           longer: seq<ResolvedCommit>, hash: Bytes -> BlockId, v: View)
  {
    && commits <= longer && BlockReads.PartOf(full, more)
    && StackOk(more, longer) && Addressed(hash, more) && StackView(more, longer) == v
  }

  /** Commits the upper directory of a mount as one more layer. */
  method CommitMount(fs: Fs.UnionFs, commits: seq<ResolvedCommit>, hash: Bytes -> BlockId)
    returns (cap: ResolvedCommit, ghost more: BlockStore)
    requires fs.Valid() && StackOk(fs.full, commits) && MountedOn(fs.full, fs.S(), MergeAll(Layers(commits)))
    requires Addressed(hash, fs.full) && UpperFits(fs.upper)
    ensures Extended(fs.full, commits, more, commits + [cap], hash, fs.View())
  {
    cap := CommitUpper(fs.upper, hash, fs.full);
    more := fs.full + cap.store.value;
    LongerStackOk(fs.full, more, fs.S(), commits, cap);
  }

  /** The upper directory of a mount is committed as one more layer; the longer stack is merged, built
      and mounted. The new mount shows what the old one shows, and can be committed in its turn. */
  method CommitAndRemount(fs: Fs.UnionFs, commits: seq<ResolvedCommit>, writable: bool, hash: Bytes -> BlockId)
    returns (cap: ResolvedCommit, again: Fs.UnionFs)
    requires fs.Valid() && StackOk(fs.full, commits) && MountedOn(fs.full, fs.S(), MergeAll(Layers(commits)))
    requires Addressed(hash, fs.full) && UpperFits(fs.upper)
    ensures fresh(again) && again.Valid() && again.writable == writable && again.View() == fs.View()
    ensures Extended(fs.full, commits, again.full, commits + [cap], hash, fs.View())
    ensures again.S() == StackState(again.full, commits + [cap])
    ensures MountedOn(again.full, again.S(), MergeAll(Layers(commits + [cap])))
  {
    ghost var more;
    cap, more := CommitMount(fs, commits, hash);
    again := MountStack(commits + [cap], writable, fs.kept, more);
    StackIsMounted(more, commits + [cap]);
  }

  // ---------------------------------------------------------------- sessions

  /** A client, and how many requests of it are served; what it asked, and what it was answered. */
  datatype Round = Round(client: Client, n: nat)
  datatype History = History(requests: seq<Request>, replies: seq<Errno>)

  ghost predicate TakesPlace(round: Round, h: History) {
    |h.requests| == |h.replies| == round.n && Answered(round.client, h.requests, h.replies)
  }

  /** The states the mount of a stack goes through while a client is served, and rightly. */
  ghost predicate ServedRightly(commits: seq<ResolvedCommit>, states: seq<State>, h: History,
                                faults: nat -> Fs.Faults)
  {
    && states != [] && states[0].upper == map[[] := UDir] && (forall c :: c in commits ==> c.store.Some?)
    && RightlyAnswered(BlockReads.MultiStore(Stores(commits)), StackTree(commits), true, faults, states,
                       h.requests, h.replies)
  }

  /** The faults of one round, and of the rounds after the first. */
  function InRound(faults: (nat, nat) -> Fs.Faults, k: nat): nat -> Fs.Faults {
    (j: nat) => faults(k, j)
  }

  function Shifted(faults: (nat, nat) -> Fs.Faults): (nat, nat) -> Fs.Faults {
    (i: nat, j: nat) => faults(i + 1, j)
  }

  lemma RightLater(commits: seq<ResolvedCommit>, states: seq<State>, h: History, faults: (nat, nat) -> Fs.Faults,
                   k: nat, next: nat)
    requires next == k + 1 && ServedRightly(commits, states, h, InRound(Shifted(faults), k))
    ensures ServedRightly(commits, states, h, InRound(faults, next))
  {
    RightWithSameFaults(BlockReads.MultiStore(Stores(commits)), StackTree(commits), true, InRound(Shifted(faults), k),
                        InRound(faults, next), states, h.requests, h.replies);
  }

  /** Every request has its reply. */
  predicate Even(hs: seq<History>) {
    forall i | 0 <= i < |hs| :: |hs[i].requests| == |hs[i].replies|
  }

  /** Round i takes place on the stack as it is then, from the view the rounds before have left. */
  ghost predicate RoundOk(v: View, base: nat, longer: seq<ResolvedCommit>, rounds: seq<Round>, hs: seq<History>,
                          traces: seq<seq<State>>, faults: (nat, nat) -> Fs.Faults, i: nat)
    requires i < |rounds| == |hs| == |traces| && base + |rounds| == |longer| && Even(hs)
  {
    && TakesPlace(rounds[i], hs[i]) && ServedRightly(longer[..base + i], traces[i], hs[i], InRound(faults, i))
    && traces[i][0].View() == ReplayAll(v, hs[..i])
  }

  ghost predicate AllTakePlace(v: View, base: nat, longer: seq<ResolvedCommit>, rounds: seq<Round>, hs: seq<History>,
                               traces: seq<seq<State>>, faults: (nat, nat) -> Fs.Faults)
  {
    && |hs| == |traces| == |rounds| && base + |rounds| == |longer|
    && Even(hs)
    && (forall i :: 0 <= i < |rounds| ==> RoundOk(v, base, longer, rounds, hs, traces, faults, i))
  }

  /** What the flat file system is after the rounds. */
  function ReplayAll(v: View, hs: seq<History>): View
    requires Even(hs)
    decreases |hs|
  {
    if hs == [] then v else ReplayAll(Replay(v, hs[0].requests, hs[0].replies), hs[1..])
  }

  lemma EvenMore(h: History, hs: seq<History>)
    requires |h.requests| == |h.replies| && Even(hs)
    ensures Even([h] + hs)
  {
  }

  lemma ReplayMore(v: View, h: History, hs: seq<History>)
    requires |h.requests| == |h.replies| && Even(hs) && Even([h] + hs)
    ensures ReplayAll(v, [h] + hs) == ReplayAll(Replay(v, h.requests, h.replies), hs)
  {
    assert ([h] + hs)[1..] == hs;
  }

  lemma FrontMore<T>(x: T, xs: seq<T>, i: nat, next: nat)
    requires i < |xs| && next == i + 1
    ensures ([x] + xs)[next] == xs[i] && ([x] + xs)[..next] == [x] + xs[..i]
  {
  }

  lemma RoundLater(v: View, base: nat, longer: seq<ResolvedCommit>, rounds: seq<Round>, h: History, states: seq<State>,
                   hs: seq<History>, traces: seq<seq<State>>, faults: (nat, nat) -> Fs.Faults, i: nat, next: nat)
    requires |rounds| == |hs| + 1 == |traces| + 1 && base + |rounds| == |longer| && i < |hs| && next == i + 1
    requires |h.requests| == |h.replies| && Even(hs) && Even([h] + hs)
    requires RoundOk(Replay(v, h.requests, h.replies), base + 1, longer, rounds[1..], hs, traces, Shifted(faults), i)
    ensures RoundOk(v, base, longer, rounds, [h] + hs, [states] + traces, faults, next)
  {
    RightLater(longer[..base + 1 + i], traces[i], hs[i], faults, i, next);
    FrontMore(h, hs, i, next);
    FrontMore(states, traces, i, next);
    assert rounds[1..][i] == rounds[next];
    EvenMore(h, hs[..i]);
    ReplayMore(v, h, hs[..i]);
  }

  lemma RoundAdded(v: View, base: nat, longer: seq<ResolvedCommit>, rounds: seq<Round>, h: History, states: seq<State>,
                   hs: seq<History>, traces: seq<seq<State>>, faults: (nat, nat) -> Fs.Faults, w: View, next: nat)
    requires rounds != [] && TakesPlace(rounds[0], h) && base + |rounds| == |longer| && next == base + 1
    requires w == Replay(v, h.requests, h.replies)
    requires ServedRightly(longer[..base], states, h, InRound(faults, 0)) && states[0].View() == v
    requires AllTakePlace(w, next, longer, rounds[1..], hs, traces, Shifted(faults))
    ensures AllTakePlace(v, base, longer, rounds, [h] + hs, [states] + traces, faults)
    ensures ReplayAll(v, [h] + hs) == ReplayAll(w, hs)
  {
    EvenMore(h, hs);
    ReplayMore(v, h, hs);
    forall i | 0 <= i < |rounds|
      ensures RoundOk(v, base, longer, rounds, [h] + hs, [states] + traces, faults, i)
    {
      if i == 0 {
        assert ([h] + hs)[..0] == [];
      } else {
        RoundLater(v, base, longer, rounds, h, states, hs, traces, faults, i - 1, i);
      }
    }
  }

  lemma ExtendedThrough(full: BlockStore, commits: seq<ResolvedCommit>, mid: BlockStore, middle: seq<ResolvedCommit>,
                        more: BlockStore, longer: seq<ResolvedCommit>, hash: Bytes -> BlockId, v: View, w: View)
    requires Extended(full, commits, mid, middle, hash, v) && Extended(mid, middle, more, longer, hash, w)
    ensures Extended(full, commits, more, longer, hash, w)
  {
    PartOfThrough(full, mid, more);
  }

  /** Another mount shows what t shows, over an empty upper directory. */
  ghost predicate Remounts(t: State, u: State) {
    u.Inv() && u.upper == map[[] := UDir] && u.View() == t.View()
  }

  /** The clients of all rounds are admitted, each on any mount that shows what the round before left. */
  ghost predicate RoundsAdmitted(s: State, rounds: seq<Round>)
    decreases |rounds|, 0
  {
    rounds == [] || Admitted(s, rounds[0].client, [], rounds[0].n, Prepares(rounds[1..]))
  }

  ghost function Prepares(rounds: seq<Round>): State -> bool
    decreases |rounds|, 1
  {
    t => forall u :: Remounts(t, u) ==> RoundsAdmitted(u, rounds)
  }

  /** A stack that can be mounted, served and committed is mounted in a good state. */
  lemma ReadyToServe(full: BlockStore, commits: seq<ResolvedCommit>)
    requires StackOk(full, commits)
    ensures MountedOn(full, StackState(full, commits), MergeAll(Layers(commits))) && Fits(StackView(full, commits))
    ensures forall c :: c in commits ==> c.store.Some?
  {
    StackMounts(full, commits);
    StackIsMounted(full, commits);
    TreeFits(full, MountBlockSize(commits), StackTree(commits));
  }

  /** The next client is admitted on the longer stack. */
  lemma NextRoundAdmitted(t: State, more: BlockStore, longer: seq<ResolvedCommit>, rest: seq<Round>)
    requires StackOk(more, longer) && StackView(more, longer) == t.View() && Prepares(rest)(t)
    ensures RoundsAdmitted(StackState(more, longer), rest)
  {
    StackMounts(more, longer);
    assert Remounts(t, StackState(more, longer));
  }

  /** One round: the stack is merged, built and mounted over an empty upper directory, the client is
      served, and the upper directory is committed. */
  method ServeRound(commits: seq<ResolvedCommit>, rounds: seq<Round>, faults: (nat, nat) -> Fs.Faults,
                    hash: Bytes -> BlockId, kept: nat -> nat, ghost full: BlockStore)
    returns (longer: seq<ResolvedCommit>, h: History, ghost more: BlockStore, ghost states: seq<State>)
    requires StackOk(full, commits) && Addressed(hash, full) && forall i, j :: MarkersClose(faults(i, j))
    requires rounds != [] && RoundsAdmitted(StackState(full, commits), rounds)
    ensures TakesPlace(rounds[0], h) && |longer| == |commits| + 1
    ensures ServedRightly(commits, states, h, InRound(faults, 0)) && states[0].View() == StackView(full, commits)
    ensures Extended(full, commits, more, longer, hash, Replay(StackView(full, commits), h.requests, h.replies))
    ensures RoundsAdmitted(StackState(more, longer), rounds[1..])
  {
    var fs := MountStack(commits, true, kept, full);
    ReadyToServe(full, commits);
    var requests, replies;
    requests, replies, states := Serve(fs, rounds[0].client, InRound(faults, 0), rounds[0].n, Prepares(rounds[1..]));
    h := History(requests, replies);
    FitsUpper(fs.S());
    var cap;
    cap, more := CommitMount(fs, commits, hash);
    longer := commits + [cap];
    NextRoundAdmitted(fs.S(), more, longer, rounds[1..]);
  }

  /** All rounds have taken place, and the longer stack shows what the flat file system is after them. */
  ghost predicate SessionDone(full: BlockStore, commits: seq<ResolvedCommit>, rounds: seq<Round>, more: BlockStore,
                              longer: seq<ResolvedCommit>, hs: seq<History>, traces: seq<seq<State>>,
                              faults: (nat, nat) -> Fs.Faults, hash: Bytes -> BlockId)
  {
    && AllTakePlace(StackView(full, commits), |commits|, longer, rounds, hs, traces, faults)
    && Extended(full, commits, more, longer, hash, ReplayAll(StackView(full, commits), hs))
  }

  lemma SessionGrows(full: BlockStore, commits: seq<ResolvedCommit>, rounds: seq<Round>, mid: BlockStore,
                     middle: seq<ResolvedCommit>, h: History, states: seq<State>, more: BlockStore,
                     longer: seq<ResolvedCommit>, hs: seq<History>, traces: seq<seq<State>>,
                     faults: (nat, nat) -> Fs.Faults, hash: Bytes -> BlockId)
    requires rounds != [] && TakesPlace(rounds[0], h) && |middle| == |commits| + 1
    requires ServedRightly(commits, states, h, InRound(faults, 0)) && states[0].View() == StackView(full, commits)
    requires Extended(full, commits, mid, middle, hash, Replay(StackView(full, commits), h.requests, h.replies))
    requires SessionDone(mid, middle, rounds[1..], more, longer, hs, traces, Shifted(faults), hash)
    ensures SessionDone(full, commits, rounds, more, longer, [h] + hs, [states] + traces, faults, hash)
  {
    var v, w := StackView(full, commits), StackView(mid, middle);
    ExtendedThrough(full, commits, mid, middle, more, longer, hash, w, ReplayAll(w, hs));
    assert longer[..|commits|] == commits;
    RoundAdded(v, |commits|, longer, rounds, h, states, hs, traces, faults, w, |middle|);
  }

  /** Any number of rounds of mounting, serving and committing. The stack grows by a layer a round, can
      be mounted again, and shows the lower stack with all successful requests replayed on it; and every
      request is answered rightly. */
  method Session(commits: seq<ResolvedCommit>, rounds: seq<Round>, faults: (nat, nat) -> Fs.Faults,
                 hash: Bytes -> BlockId, kept: nat -> nat, ghost full: BlockStore)
    returns (longer: seq<ResolvedCommit>, hs: seq<History>, ghost more: BlockStore, ghost traces: seq<seq<State>>)
    requires StackOk(full, commits) && Addressed(hash, full) && forall i, j :: MarkersClose(faults(i, j))
    requires RoundsAdmitted(StackState(full, commits), rounds)
    ensures SessionDone(full, commits, rounds, more, longer, hs, traces, faults, hash)
    decreases |rounds|
  {
    if rounds == [] {
      return commits, [], full, [];
    }
    var middle, h;
    ghost var mid, states;
    middle, h, mid, states := ServeRound(commits, rounds, faults, hash, kept, full);
    longer, hs, more, traces := Session(middle, rounds[1..], Shifted(faults), hash, kept, mid);
    SessionGrows(full, commits, rounds, mid, middle, h, states, more, longer, hs, traces, faults, hash);
    hs, traces := [h] + hs, [states] + traces;
  }

  /** Such a session, and its stack mounted read-only in the end. */
  method SessionAndMount(commits: seq<ResolvedCommit>, rounds: seq<Round>, faults: (nat, nat) -> Fs.Faults,
                         hash: Bytes -> BlockId, kept: nat -> nat, ghost full: BlockStore)
    returns (fs: Fs.UnionFs, hs: seq<History>, ghost longer: seq<ResolvedCommit>, ghost traces: seq<seq<State>>)
    requires StackOk(full, commits) && Addressed(hash, full) && forall i, j :: MarkersClose(faults(i, j))
    requires RoundsAdmitted(StackState(full, commits), rounds)
    ensures AllTakePlace(StackView(full, commits), |commits|, longer, rounds, hs, traces, faults)
    ensures fresh(fs) && fs.Valid() && !fs.writable
    ensures fs.View() == ReplayAll(StackView(full, commits), hs)
  {
    var stack;
    ghost var more;
    stack, hs, more, traces := Session(commits, rounds, faults, hash, kept, full);
    fs := MountStack(stack, false, kept, more);
    longer := stack;
  }

  /** Clients that replace a file each are admitted over any number of rounds. */
  lemma {:induction false} ReplaceRoundsAdmitted(s: State, names: seq<Name>, perm: nat)
    requires s.Inv() && forall i | 0 <= i < |names| :: Plain(names[i])
    ensures RoundsAdmitted(s, seq(|names|, i requires 0 <= i < |names| => Round(Replace(names[i], perm), 2)))
    decreases |names|
  {
    if names != [] {
      var rounds := seq(|names|, i requires 0 <= i < |names| => Round(Replace(names[i], perm), 2));
      var rest := names[1..];
      assert rounds[1..] == seq(|rest|, i requires 0 <= i < |rest| => Round(Replace(rest[i], perm), 2));
      forall t: State, u | t.Inv() && Remounts(t, u)
        ensures RoundsAdmitted(u, rounds[1..])
      {
        ReplaceRoundsAdmitted(u, rest, perm);
      }
      ReplaceAdmitted(s, names[0], perm, Prepares(rounds[1..]));
    }
  }
}
