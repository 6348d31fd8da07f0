/**
 Chains of blocks and the two walks along them that a commit makes: the search for missing
 ancestors (`have_all_ancestors`) and the collection of the blocks to commit (`commit`),
 both in hydrangea/src/core.rs, with the in-memory indexes that they read.
 */
module Chains {
  import opened Types
  import opened Steps

  // ---------------------------------------------------------------- chains of blocks

  // The blocks after a up to b, oldest first.
  function Path(a: Block, b: Block): seq<Block>
    decreases b
  {
    if b == a || !b.parent.Hash? then [] else Path(a, b.parent.block) + [b]
  }

  // Parent rounds decrease.
  predicate ParentLower(b: Block) {
    b.parent.Hash? ==> b.parent.block.round < b.round
  }

  // Every block strictly between `last` and b is held in memory.
  predicate Held(blocks: map<Digest, Block>, last: Block, b: Block)
    decreases b
  {
    || b.parent == Hash(last)
    || (b.parent.Hash? && b.parent in blocks && blocks[b.parent] == b.parent.block && Held(blocks, last, b.parent.block))
  }

  ghost function Depth(b: Block): nat {
    if b.parent.Hash? then 1 + Depth(b.parent.block) else 0
  }

  lemma {:induction false} ExtendsDepth(b: Block, a: Block)
    requires Extends(b, a)
    ensures Depth(a) <= Depth(b) && (Depth(a) == Depth(b) ==> a == b)
  {
    if a != b {
      ExtendsDepth(b.parent.block, a);
    }
  }

  // A commit appends its path to the path committed before.
  lemma {:induction false} PathThrough(a: Block, b: Block, c: Block)
    requires Extends(c, b) && Extends(b, a)
    ensures Path(a, c) == Path(a, b) + Path(b, c)
    decreases c
  {
    if c == b {
      assert Path(b, c) == [];
    } else {
      ExtendsDepth(c.parent.block, b);
      ExtendsDepth(b, a);
      PathThrough(a, b, c.parent.block);
    }
  }

  // A committed chain: the blocks from genesis (exclusive) to its tip, oldest first.
  datatype Segment = Segment(tip: Block, blocks: seq<Block>)

  predicate IsChain(s: Segment) {
    Extends(s.tip, GENESIS) && s.blocks == Path(GENESIS, s.tip)
  }

  type Chain = s: Segment | IsChain(s) witness Segment(GENESIS, [])

  function Grow(c: Chain, b: Block): (c': Chain)
    requires Extends(b, c.tip)
    ensures c' == Segment(b, c.blocks + Path(c.tip, b))
  {
    ExtendsTransitive(b, c.tip, GENESIS);
    PathThrough(GENESIS, c.tip, b);
    Segment(b, c.blocks + Path(c.tip, b))
  }

  // ---------------------------------------------------------------- the search for ancestors

  predicate Consistent(blocks: map<Digest, Block>) {
    forall d :: d in blocks ==> Hash(blocks[d]) == d
  }

  // Memory first, then Synchronizer::get_block (synchronizer.rs:171-195): genesis, or what is on disk.
  function Lookup(blocks: map<Digest, Block>, store: map<Digest, Block>, d: Digest): Option<Block> {
    if d in blocks then Some(blocks[d])
    else if d == Hash(GENESIS) then Some(GENESIS)
    else if d in store then Some(store[d])
    else None
  }

  datatype Found = Complete | Missing(d: Digest) | Astray

  // The walk of have_all_ancestors from b down to the round of the last commit.
  function Search(blocks: map<Digest, Block>, store: map<Digest, Block>, last: Block, b: Block): Found
    requires Consistent(blocks) && Consistent(store)
    decreases b
  {
    match Lookup(blocks, store, b.parent)
    case None => Missing(b.parent)
    case Some(parent) =>
      if parent.round == last.round then Complete
      else if parent.round < last.round then Astray
      else Search(blocks, store, last, parent)
  }

  // What is found missing is an ancestor.
  lemma {:induction false} MissingIsAncestor(blocks: map<Digest, Block>, store: map<Digest, Block>, last: Block, b: Block)
    requires Consistent(blocks) && Consistent(store) && b.round > last.round
    requires Search(blocks, store, last, b).Missing?
    ensures AncestorDigest(b, Search(blocks, store, last, b).d)
    decreases b
  {
    if Lookup(blocks, store, b.parent) != None {
      MissingIsAncestor(blocks, store, last, b.parent.block);
    }
  }

  // How the walk ends: at the first ancestor that is not above the last commit, or at one that is not there.
  ghost predicate EndsAt(blocks: map<Digest, Block>, store: map<Digest, Block>, last: Block, b: Block, d: Digest)
    decreases b
  {
    b.parent == d || (b.parent.Hash? && Lookup(blocks, store, b.parent) != None && b.parent.block.round > last.round
                      && EndsAt(blocks, store, last, b.parent.block, d))
  }

  lemma {:induction false} SearchEnds(blocks: map<Digest, Block>, store: map<Digest, Block>, last: Block, b: Block) returns (d: Digest)
    requires Consistent(blocks) && Consistent(store)
    ensures EndsAt(blocks, store, last, b, d)
    ensures match Search(blocks, store, last, b)
            case Missing(m) => m == d && Lookup(blocks, store, d) == None
            case Complete => d.Hash? && Lookup(blocks, store, d) == Some(d.block) && d.block.round == last.round
            case Astray => d.Hash? && Lookup(blocks, store, d) == Some(d.block) && d.block.round < last.round
    decreases b
  {
    d := b.parent;
    if Lookup(blocks, store, d) != None && d.block.round > last.round {
      d := SearchEnds(blocks, store, last, d.block);
    }
  }

  ghost predicate InMemory(blocks: map<Digest, Block>, store: map<Digest, Block>, r: Round) {
    forall d :: d in store && store[d].round > r ==> d in blocks
  }

  // b descends from a through blocks of decreasing rounds.
  predicate DescendsTo(b: Block, a: Block)
    decreases b
  {
    b == a || (b.parent.Hash? && b.parent.block.round < b.round && DescendsTo(b.parent.block, a))
  }

  lemma {:induction false} DescendantIsLater(b: Block, a: Block)
    requires DescendsTo(b, a)
    ensures a.round <= b.round && (b != a ==> a.round < b.round) && Extends(b, a)
    decreases b
  {
    if b != a {
      DescendantIsLater(b.parent.block, a);
    }
  }

  lemma {:induction false} DescendsTransitive(c: Block, b: Block, a: Block)
    requires DescendsTo(c, b) && DescendsTo(b, a)
    ensures DescendsTo(c, a)
    decreases c
  {
    if c != b {
      DescendsTransitive(c.parent.block, b, a);
    }
  }

  // The last of the blocks after a.
  function Tip(a: Block, blocks: seq<Block>): Block {
    if blocks == [] then a else blocks[|blocks| - 1]
  }

  // Each block names the one before it as its parent, and the first names a.
  predicate Linked(a: Block, blocks: seq<Block>) {
    forall k :: 0 <= k < |blocks| ==> blocks[k].parent == Hash(Tip(a, blocks[..k]))
  }

  predicate RoundsIncrease(a: Block, blocks: seq<Block>) {
    forall k :: 0 <= k < |blocks| ==> Tip(a, blocks[..k]).round < blocks[k].round
  }

  lemma LinkOneMore(a: Block, blocks: seq<Block>, b: Block)
    requires Linked(a, blocks) && b.parent == Hash(Tip(a, blocks))
    ensures Linked(a, blocks + [b])
    ensures RoundsIncrease(a, blocks) && Tip(a, blocks).round < b.round ==> RoundsIncrease(a, blocks + [b])
  {
    assert forall k :: 0 <= k <= |blocks| ==> (blocks + [b])[..k] == blocks[..k];
    assert blocks[..|blocks|] == blocks;
  }

  /** A path is linked by parents from its start to its end, and its rounds increase if they do along the way. */
  lemma {:induction false} PathIsLinked(a: Block, b: Block)
    requires Extends(b, a)
    ensures Linked(a, Path(a, b)) && Tip(a, Path(a, b)) == b
    ensures DescendsTo(b, a) ==> RoundsIncrease(a, Path(a, b))
    decreases b
  {
    if b != a {
      PathIsLinked(a, b.parent.block);
      LinkOneMore(a, Path(a, b.parent.block), b);
    }
  }

  // From a descendant of the last commit the walk cannot go astray, and when it completes
  // every uncommitted ancestor is in memory.
  lemma {:induction false} SearchFindsChain(blocks: map<Digest, Block>, store: map<Digest, Block>, last: Block, b: Block)
    requires Consistent(blocks) && Consistent(store) && InMemory(blocks, store, last.round)
    requires DescendsTo(b, last) && b != last && Lookup(blocks, store, Hash(last)) != None
    ensures Search(blocks, store, last, b) != Astray
    ensures Search(blocks, store, last, b) == Complete <==> Held(blocks, last, b)
    decreases b
  {
    var parent := b.parent.block;
    DescendantIsLater(parent, last);
    if parent != last && Lookup(blocks, store, b.parent) != None {
      SearchFindsChain(blocks, store, last, parent);
    }
  }

  // ---------------------------------------------------------------- the walk of a commit

  datatype Gathering = Gathered(left: map<Digest, Block>) | Gap | OffChain

  // The first loop of commit (core.rs:379-399): take ancestors out of memory down to the last commit.
  function Gather(blocks: map<Digest, Block>, last: Block, a: Block): Gathering
    requires Consistent(blocks)
    decreases a
  {
    if a.parent == Hash(last) then Gathered(blocks)
    else if a.parent !in blocks then Gap
    else if blocks[a.parent].round <= last.round then OffChain
    else Gather(blocks - {a.parent}, last, blocks[a.parent])
  }

  function Reverse(s: seq<Block>): (r: seq<Block>)
    ensures |r| == |s|
  {
    if s == [] then [] else [s[|s| - 1]] + Reverse(s[..|s| - 1])
  }

  // The loop has taken the blocks above a out of memory and pushed them.
  ghost predicate Walking(blocks: map<Digest, Block>, last: Block, block: Block, left: map<Digest, Block>, a: Block, stack: seq<Block>) {
    && Consistent(blocks) && Consistent(left) && a.round > last.round
    && Gather(left, last, a) == Gather(blocks, last, block)
    && Path(last, block) == Path(last, a) + Reverse(stack)
  }

  lemma Push(stack: seq<Block>, a: Block)
    ensures Reverse(stack + [a]) == [a] + Reverse(stack)
  {
    assert (stack + [a])[..|stack|] == stack;
  }

  // One turn of the loop.
  lemma WalkStep(blocks: map<Digest, Block>, last: Block, block: Block, left: map<Digest, Block>, a: Block, stack: seq<Block>)
    requires Walking(blocks, last, block, left, a, stack)
    ensures a.parent == Hash(last) ==> Gather(blocks, last, block) == Gathered(left) && Reverse(stack + [a]) == Path(last, block)
    ensures a.parent != Hash(last) && a.parent !in left ==> Gather(blocks, last, block) == Gap
    ensures a.parent != Hash(last) && a.parent in left ==>
            if left[a.parent].round <= last.round then Gather(blocks, last, block) == OffChain
            else left[a.parent] == a.parent.block && Walking(blocks, last, block, left - {a.parent}, left[a.parent], stack + [a])
  {
    Push(stack, a);
    if a.parent == Hash(last) {
      assert Path(last, a) == [a];
    } else if a.parent in left && left[a.parent].round > last.round {
      assert Path(last, a) == Path(last, a.parent.block) + [a];
      assert Path(last, a.parent.block) + ([a] + Reverse(stack)) == Path(last, a) + Reverse(stack);
    }
  }

  // The ancestors of a above `last`.
  function Between(last: Block, a: Block): seq<Block> {
    if a.parent == Hash(last) || !a.parent.Hash? then [] else Path(last, a.parent.block)
  }

  lemma PathOf(last: Block, a: Block)
    requires a != last && a.parent.Hash?
    ensures Path(last, a) == Between(last, a) + [a]
  {
    if a.parent == Hash(last) {
      assert Path(last, last) == [];
    }
  }

  lemma {:induction false} AncestorIsLess(b: Block, d: Digest)
    requires AncestorDigest(b, d) && d.Hash?
    ensures Depth(d.block) < Depth(b)
  {
    if b.parent != d {
      AncestorIsLess(b.parent.block, d);
    }
  }

  // If not all ancestors are gathered, one is not in memory, or one that is not above the last commit is.
  lemma {:induction false} GatherFails(blocks: map<Digest, Block>, last: Block, a: Block) returns (d: Digest)
    requires Consistent(blocks) && !Gather(blocks, last, a).Gathered? && a.round > last.round
    ensures AncestorDigest(a, d) && d != Hash(last)
    ensures if d in blocks then Gather(blocks, last, a) == OffChain && blocks[d].round <= last.round else Gather(blocks, last, a) == Gap
    decreases a
  {
    d := a.parent;
    if d in blocks && blocks[d].round > last.round {
      d := GatherFails(blocks - {d}, last, d.block);
      if d.Hash? {
        AncestorIsLess(a.parent.block, d);
      }
    }
  }

  // Only a descendant of the last commit is gathered, and only older blocks are taken.
  lemma {:induction false} GatheredIsChain(blocks: map<Digest, Block>, last: Block, a: Block)
    requires Consistent(blocks) && Gather(blocks, last, a).Gathered?
    ensures Extends(a, last) && forall p :: p in Between(last, a) ==> p.round > last.round
    ensures Consistent(Gather(blocks, last, a).left)
    ensures forall d :: d in Gather(blocks, last, a).left ==> d in blocks && Gather(blocks, last, a).left[d] == blocks[d]
    ensures (forall d :: d in blocks ==> ParentLower(blocks[d])) && ParentLower(a) ==>
            DescendsTo(a, last) && forall d :: d in blocks && blocks[d].round >= a.round ==> d in Gather(blocks, last, a).left
    decreases a
  {
    if a.parent != Hash(last) {
      GatheredIsChain(blocks - {a.parent}, last, blocks[a.parent]);
    }
  }

  // Exactly the ancestors are taken out of memory.
  lemma {:induction false} GatheredLeft(blocks: map<Digest, Block>, last: Block, a: Block)
    requires Consistent(blocks) && Gather(blocks, last, a).Gathered?
    ensures forall d :: d in Gather(blocks, last, a).left <==> d in blocks && blocks[d] !in Between(last, a)
    decreases a
  {
    if a.parent != Hash(last) {
      var parent := blocks[a.parent];
      GatheredLeft(blocks - {a.parent}, last, parent);
      assert Path(last, parent) == Between(last, parent) + [parent] by { PathOf(last, parent); }
    }
  }

  lemma {:induction false} HeldWithout(blocks: map<Digest, Block>, last: Block, b: Block, x: Block)
    requires Held(blocks, last, b) && Depth(b) <= Depth(x)
    ensures Held(blocks - {Hash(x)}, last, b)
    decreases b
  {
    if b.parent != Hash(last) {
      HeldWithout(blocks, last, b.parent.block, x);
    }
  }

  // If every uncommitted ancestor is held, the walk gathers them all.
  lemma {:induction false} HeldIsGathered(blocks: map<Digest, Block>, last: Block, a: Block)
    requires Consistent(blocks) && Held(blocks, last, a) && DescendsTo(a, last) && a != last
    ensures Gather(blocks, last, a).Gathered?
    decreases a
  {
    if a.parent != Hash(last) {
      var parent := a.parent.block;
      DescendantIsLater(parent, last);
      HeldWithout(blocks, last, parent, parent);
      HeldIsGathered(blocks - {a.parent}, last, parent);
    }
  }

  // core.rs:371-399: `toCommit` is a stack with the newest block at its base.
  method GatherAncestors(blocks: map<Digest, Block>, last: Block, block: Block)
    returns (walk: Gathering, toCommit: seq<Block>)
    requires Consistent(blocks) && block.round > last.round
    ensures walk == Gather(blocks, last, block)
    ensures walk.Gathered? ==> Reverse(toCommit) == Path(last, block)
  {
    var left, ancestor := blocks, block;
    toCommit := [];
    while true
      invariant Walking(blocks, last, block, left, ancestor, toCommit)
      decreases ancestor
    {
      WalkStep(blocks, last, block, left, ancestor, toCommit);
      var parent := ancestor.parent;
      toCommit := toCommit + [ancestor];
      if parent == Hash(last) {
        return Gathered(left), toCommit;
      }
      if parent !in left {
        return Gap, toCommit;
      }
      ancestor := left[parent];
      left := left - {parent};
      if ancestor.round <= last.round {
        return OffChain, toCommit;
      }
    }
  }

  // core.rs:402-423: newly committed blocks go to the application, oldest first.
  method Emit(output: seq<Block>, stack: seq<Block>) returns (output': seq<Block>)
    ensures output' == output + Reverse(stack)
  {
    output' := output;
    var toCommit := stack;
    while toCommit != []
      invariant output' + Reverse(toCommit) == output + Reverse(stack)
      decreases |toCommit|
    {
      output' := output' + [toCommit[|toCommit| - 1]];
      toCommit := toCommit[..|toCommit| - 1];
    }
  }

  // core.rs:242-281: the walk itself, without its effect on sync_requests.
  method WalkAncestors(blocks: map<Digest, Block>, store: map<Digest, Block>, last: Block, block: Block) returns (found: Found)
    requires Consistent(blocks) && Consistent(store)
    ensures found == Search(blocks, store, last, block)
  {
    var b := block;
    while true
      invariant Search(blocks, store, last, b) == Search(blocks, store, last, block)
      decreases b
    {
      match Lookup(blocks, store, b.parent) {
        case None =>
          return Missing(b.parent);
        case Some(parent) =>
          if parent.round == last.round {
            return Complete;
          }
          if parent.round < last.round {
            return Astray;
          }
          b := parent;
      }
    }
  }

  // ---------------------------------------------------------------- the node's indexes

  // Memory and disk agree with the digests, and what is in memory is on disk.
  ghost predicate BlocksOk(blocks: map<Digest, Block>, store: map<Digest, Block>) {
    && Consistent(blocks) && Consistent(store)
    && forall d :: d in blocks ==> Stored(store, d)
  }

  predicate Stored(store: map<Digest, Block>, d: Digest) {
    d in store || d == Hash(GENESIS)
  }

  ghost predicate QcsOk(qcs: map<Round, QC>) {
    forall r :: r in qcs ==> qcs[r].round == r
  }

  predicate Commits(qc: QC, d: Digest) {
    qc.blkHash == d && (qc.kind == Commit || qc.fastQuorum)
  }

  ghost predicate CommittableOk(committable: map<Digest, Round>, qcs: map<Digest, QC>) {
    forall d :: d in committable ==> d in qcs && Commits(qcs[d], d)
  }

  // Parent rounds decrease, every pending block is held for its round, and every stored
  // block of an uncommitted round is in memory.
  ghost predicate Tidy(blocks: map<Digest, Block>, pending: map<Round, Digest>, store: map<Digest, Block>, r: Round) {
    && (forall d :: d in blocks ==> ParentLower(blocks[d]))
    && (forall r :: r in pending && r > 0 ==> pending[r] in blocks && blocks[pending[r]].round == r)
    && InMemory(blocks, store, r)
  }

  function Later(blocks: map<Digest, Block>, r: Round): map<Digest, Block> {
    map d | d in blocks && blocks[d].round > r :: blocks[d]
  }

  function LaterQcs(qcs: map<Round, QC>, r: Round): map<Round, QC> {
    map x | x in qcs && qcs[x].round > r :: qcs[x]
  }

  function LaterCommittable(committable: map<Digest, Round>, r: Round): map<Digest, Round> {
    map d | d in committable && committable[d] > r :: committable[d]
  }

  // After a commit through decreasing rounds the indexes are still tidy.
  lemma CommitKeepsTidy(blocks: map<Digest, Block>, pending: map<Round, Digest>, store: map<Digest, Block>, last: Block, b: Block)
    requires Consistent(blocks) && Consistent(store) && Gather(blocks, last, b).Gathered? && b.round > last.round
    requires Tidy(blocks, pending, store, last.round) && ParentLower(b)
    ensures Tidy(Later(Gather(blocks, last, b).left, b.round), Prune(pending, b.round), store, b.round)
    ensures DescendsTo(b, last)
  {
    GatheredIsChain(blocks, last, b);
    var left := Gather(blocks, last, b).left;
    assert forall d :: d in blocks && blocks[d].round > b.round ==> d in left && left[d] == blocks[d];
  }
}
