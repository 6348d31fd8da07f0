/**
 The weak certificate that a TC maker builds from the votes reported in timeouts
 (hydrangea/src/aggregator.rs:232-282), with its bitmap and its summed signature.
 */
module WeakCertificates {
  import opened Types
  import opened Makers
  import opened Bitmap
  import opened Groups
  import opened Aggregation

  datatype SignedWqc<S> = SignedWqc(blkHash: Digest, round: Round, bits: seq<nat>, sig: S)

  /** aggregator.rs:234-240: the hash map holds the votes of every reported round, in order of arrival. */
  method GroupByRound<S>(votes: seq<SignedVote<S>>) returns (groups: map<Round, seq<SignedVote<S>>>)
    ensures forall r :: r in groups <==> InRound(votes, r) != []
    ensures forall r :: r in groups ==> groups[r] == InRound(votes, r)
  {
    groups := map[];
    for i := 0 to |votes|
      invariant forall r :: r in groups <==> InRound(votes[..i], r) != []
      invariant forall r :: r in groups ==> groups[r] == InRound(votes[..i], r)
    {
      var v := votes[i];
      assert votes[..i + 1][..i] == votes[..i];
      groups := groups[v.vote.round := (if v.vote.round in groups then groups[v.vote.round] else []) + [v]];
    }
    assert votes[..|votes|] == votes;
  }

  function AuthorsOf<S>(votes: seq<SignedVote<S>>): seq<nat> {
    seq(|votes|, i requires 0 <= i < |votes| => votes[i].vote.author)
  }

  // The sum of the signatures.
  function SigSum<S(!new)>(g: Group<S>, votes: seq<SignedVote<S>>): S {
    if votes == [] then g.zero else g.add(SigSum(g, votes[..|votes| - 1]), votes[|votes| - 1].sig)
  }

  lemma SigSumStep<S(!new)>(g: Group<S>, votes: seq<SignedVote<S>>, i: nat)
    requires g.Lawful() && i < |votes|
    ensures SigSum(g, votes[..i + 1]) == g.add(SigSum(g, votes[..i]), votes[i].sig)
    ensures i == 0 ==> SigSum(g, votes[..1]) == votes[0].sig
  {
    assert votes[..i + 1][..i] == votes[..i];
    assert g.add(g.zero, votes[i].sig) == g.add(votes[i].sig, g.zero);
  }

  // The bitmap, positions and signature after the first i votes.
  ghost predicate Gathered<K(!new), S(!new)>(x: Scheme<K, S>, c: Committee<K>, votes: seq<SignedVote<S>>, i: nat, bits: seq<nat>, ids: seq<nat>, sig: S)
    requires i <= |votes| && votes != []
  {
    && |bits| == Chunks(|c.keys|) && Signers(bits, |c.keys|) == Elements(ids)
    && ids == AuthorsOf(votes)[..i] && (forall k :: 0 <= k < i ==> votes[k].vote.author < |c.keys|)
    && sig == SigSum(x.sigs, votes[..if i == 0 then 1 else i])
  }

  lemma GatherOne<K(!new), S(!new)>(x: Scheme<K, S>, c: Committee<K>, votes: seq<SignedVote<S>>, i: nat, bits: seq<nat>, ids: seq<nat>, sig: S)
    requires x.sigs.Lawful() && i < |votes| && Gathered(x, c, votes, i, bits, ids, sig) && votes[i].vote.author < |c.keys|
    ensures votes[i].vote.author / 128 < |bits|
    ensures Gathered(x, c, votes, i + 1, Clear(bits, votes[i].vote.author), ids + [votes[i].vote.author],
                     if i > 0 then x.sigs.add(sig, votes[i].sig) else sig)
  {
    ClearSigner(bits, |c.keys|, votes[i].vote.author);
    PushElement(ids, votes[i].vote.author);
    SigSumStep(x.sigs, votes, i);
  }

  // Every voter is a member.
  predicate Known<S>(n: nat, votes: seq<SignedVote<S>>) {
    forall k :: 0 <= k < |votes| ==> votes[k].vote.author < n
  }

  // What the batch check of the group tests: the signatures against the last vote.
  predicate GroupVerifies<K(!new), S(==, !new)>(x: Scheme<K, S>, keys: seq<K>, votes: seq<SignedVote<S>>)
    requires votes != [] && Known(|keys|, votes)
  {
    var last := votes[|votes| - 1].vote;
    SigSum(x.sigs, votes) == x.sign(Statement(last.blkHash, last.kind, last.round), Sum(x.keys, keys, AuthorsOf(votes)))
  }

  // aggregator.rs:252-268
  method GatherVotes<K(!new), S(==, !new)>(x: Scheme<K, S>, c: Committee<K>, votes: seq<SignedVote<S>>)
    returns (known: bool, bits: seq<nat>, ids: seq<nat>, aggSign: S)
    requires x.Lawful() && votes != []
    ensures known <==> Known(|c.keys|, votes)
    ensures known ==> Signers(bits, |c.keys|) == Elements(ids) && ids == AuthorsOf(votes) && aggSign == SigSum(x.sigs, votes)
  {
    aggSign, bits, ids, known := votes[0].sig, Full(|c.keys|), [], false;
    NoSigners(|c.keys|);
    SigSumStep(x.sigs, votes, 0);
    for i := 0 to |votes|
      invariant Gathered(x, c, votes, i, bits, ids, aggSign)
    {
      if votes[i].vote.author >= |c.keys| {
        return;
      }
      GatherOne(x, c, votes, i, bits, ids, aggSign);
      var id := votes[i].vote.author;
      bits := Clear(bits, id);
      ids := ids + [id];
      if i > 0 {
        aggSign := x.sigs.add(aggSign, votes[i].sig);
      }
    }
    known := true;
    assert votes[..|votes|] == votes;
  }

  /**
   aggregator.rs:247-279: the certificate is named after the first vote, its bitmap names
   exactly the voters, and it is built exactly when the sum of the signatures verifies against
   the last vote under the sum of the voters' keys. None is the panic on a vote by a stranger.
   */
  method BuildWqc<K(!new), S(==, !new)>(x: Scheme<K, S>, c: Committee<K>, votes: seq<SignedVote<S>>) returns (wqc: Option<Option<SignedWqc<S>>>)
    requires x.Lawful() && votes != []
    ensures wqc == None <==> !Known(|c.keys|, votes)
    ensures wqc.Some? ==> (wqc.value.Some? <==> GroupVerifies(x, c.keys, votes))
    ensures wqc.Some? && wqc.value.Some? ==>
              && wqc.value.value.blkHash == votes[0].vote.blkHash && wqc.value.value.round == votes[0].vote.round
              && Signers(wqc.value.value.bits, |c.keys|) == Elements(AuthorsOf(votes))
              && wqc.value.value.sig == SigSum(x.sigs, votes)
  {
    var known, bits, ids, aggSign := GatherVotes(x, c, votes);
    if !known {
      return None;
    }
    var aggPk := CombineKeyFromIds(x.keys, ids, c.keys);
    var last := votes[|votes| - 1].vote;
    if aggSign == x.sign(Statement(last.blkHash, last.kind, last.round), aggPk) {
      wqc := Some(Some(SignedWqc(votes[0].vote.blkHash, votes[0].vote.round, bits, aggSign)));
    } else {
      wqc := Some(None);
    }
  }

  /** If every signature of a group is valid on the last vote, the ideal batch check, then the group verifies. */
  lemma {:induction false} CoveredGroupVerifies<K(!new), S(!new)>(x: Scheme<K, S>, keys: seq<K>, votes: seq<SignedVote<S>>, of: Statement, n: nat)
    requires x.Lawful() && Known(|keys|, votes) && n <= |votes|
    requires forall k :: 0 <= k < |votes| ==> votes[k].sig == x.sign(of, keys[votes[k].vote.author])
    ensures SigSum(x.sigs, votes[..n]) == x.sign(of, Sum(x.keys, keys, AuthorsOf(votes)[..n]))
  {
    if n > 0 {
      CoveredGroupVerifies(x, keys, votes, of, n - 1);
      SigSumStep(x.sigs, votes, n - 1);
      SumStep(x.keys, keys, AuthorsOf(votes), n - 1);
    }
  }

  lemma AuthorsAreVoters<S>(votes: seq<SignedVote<S>>)
    ensures Elements(AuthorsOf(votes)) == VotersOf(votes)
  {
    var ids := AuthorsOf(votes);
    forall i | i in VotersOf(votes) ensures i in Elements(ids) {
      var k :| 0 <= k < |votes| && votes[k].vote.author == i;
      assert ids[k] == i;
    }
  }

  // The weak certificate without its bitmap and signature.
  ghost function Meaning<S>(w: SignedWqc<S>, n: nat): WQC {
    WQC(w.blkHash, w.round, Signers(w.bits, n))
  }

  /**
   check_wqc, aggregator.rs:232-282. Some round with enough reported votes is tried, whichever the
   hash map yields, and none only if there is no such round. A vote by a stranger in its group makes
   it panic; otherwise a certificate results exactly if the group verifies. It is one that the value
   model may build from the same reported votes.
   */
  method CheckWqc<K(!new), S(==, !new)>(x: Scheme<K, S>, c: Committee<K>, votes: seq<SignedVote<S>>)
    returns (panics: bool, wqc: Option<SignedWqc<S>>, ghost pick: Option<Round>)
    requires x.Lawful()
    ensures pick == None ==> (forall r :: |InRound(votes, r)| < c.p.WeakCert()) && !panics && wqc == None
    ensures pick.Some? ==> |InRound(votes, pick.value)| >= c.p.WeakCert() && (panics <==> !Known(|c.keys|, InRound(votes, pick.value)))
    ensures panics ==> wqc == None
    ensures pick.Some? && !panics ==> (wqc.Some? <==> GroupVerifies(x, c.keys, InRound(votes, pick.value)))
    ensures wqc.Some? ==> wqc.value.round == pick.value && MayCertify(c.p, votes, Meaning(wqc.value, |c.keys|))
    ensures wqc.Some? ==> wqc.value.sig == SigSum(x.sigs, InRound(votes, pick.value))
  {
    var groups := GroupByRound(votes);
    panics, wqc, pick := false, None, None;
    if r :| r in groups && |groups[r]| >= c.p.WeakCert() {
      pick := Some(r);
      var group := groups[r];
      var built := BuildWqc(x, c, group);
      if built == None {
        panics := true;
      } else {
        wqc := built.value;
        AuthorsAreVoters(group);
        InRoundIsReported(votes, r, 0);
      }
    }
  }

  /**
   For distinct voters the two ways to compute the group's key agree: adding up the voters'
   keys, and taking the non-voters of the bitmap out of the combined key.
   */
  lemma SameAsRemoval<K(!new), S(!new)>(x: Scheme<K, S>, c: Committee<K>, votes: seq<SignedVote<S>>, bits: seq<nat>, of: Statement)
    requires x.Lawful() && Known(|c.keys|, votes) && Distinct(AuthorsOf(votes))
    requires Signers(bits, |c.keys|) == Elements(AuthorsOf(votes))
    ensures Verifies(x, c, of, bits, x.sign(of, Sum(x.keys, c.keys, AuthorsOf(votes))))
  {
    SumOfDistinct(x.keys, c.keys, AuthorsOf(votes));
  }

  lemma PushElement(ids: seq<nat>, id: nat)
    ensures Elements(ids + [id]) == Elements(ids) + {id}
  {
    assert (ids + [id])[|ids|] == id;
    assert forall k :: 0 <= k < |ids| ==> (ids + [id])[k] == ids[k];
  }
}
