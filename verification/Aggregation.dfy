/**
 The QC maker of hydrangea/src/aggregator.rs with its bitmap and its incrementally summed
 signature, and the receiver's check of a QC (hydrangea/src/messages.rs:373-409). Members
 are named by the position of their key in the committee's sorted key vector.
 */
module Aggregation {
  import opened Types
  import opened Thresholds
  import opened Makers
  import opened Bitmap
  import opened Groups

  // `sign(h, k)` is the one valid signature on h under the public key k.
  datatype Scheme<!K(!new), !S(!new)> = Scheme(keys: Group<K>, sigs: Group<S>, sign: (Statement, K) -> S) {
    ghost predicate Lawful() {
      && keys.Lawful() && sigs.Lawful()
      && (forall h, a, b :: sign(h, keys.add(a, b)) == sigs.add(sign(h, a), sign(h, b)))
      && (forall h :: sign(h, keys.zero) == sigs.zero)
    }
  }

  datatype Committee<!K(!new)> = Committee(p: Params, keys: seq<K>, combined: K) {
    // config/src/lib.rs:242-245
    ghost predicate Valid(g: Group<K>) {
      |keys| == p.N() && combined == Total(g, |keys|, At(keys, Below(|keys|)))
    }
  }

  datatype SignedQc<S> = SignedQc(of: Statement, bits: seq<nat>, sig: S, fastQuorum: bool)

  // ---------------------------------------------------------------- verification

  // The members whose bits are cleared.
  ghost function Signers(bits: seq<nat>, n: nat): set<nat> {
    set i | i in Below(n) && !IsSet(bits, i)
  }

  // What the signature check of a QC amounts to: the signature is that of the sum of the signers' keys.
  ghost predicate Verifies<K(!new), S(!new)>(x: Scheme<K, S>, c: Committee<K>, of: Statement, bits: seq<nat>, sig: S) {
    sig == x.sign(of, Total(x.keys, |c.keys|, At(c.keys, Signers(bits, |c.keys|))))
  }

  lemma DecodedSigners(bits: seq<nat>, n: nat, ids: seq<nat>)
    requires forall j :: j in ids <==> 0 <= j < n && IsSet(bits, j)
    requires forall a, b :: 0 <= a < b < |ids| ==> ids[a] < ids[b]
    ensures Distinct(ids) && Elements(ids) <= Below(n) && Below(n) - Elements(ids) == Signers(bits, n)
  {
    assert forall j :: j in Elements(ids) ==> j in ids;
    forall j | j in ids ensures j in Elements(ids) {
      var k :| 0 <= k < |ids| && ids[k] == j;
    }
  }

  /**
   The combined key minus the keys of the non-signers, decoded from the bitmap, is the sum of
   the signers' keys; so the check passes exactly for the signature of that sum
   (messages.rs:386-408 and aggregator.rs:146-160). None is an index out of bounds.
   */
  method VerifyBatch<K(!new), S(==, !new)>(x: Scheme<K, S>, c: Committee<K>, of: Statement, bits: seq<nat>, sig: S)
    returns (ok: Option<bool>)
    requires x.Lawful() && c.Valid(x.keys)
    ensures ok == None <==> |bits| < Chunks(|c.keys|)
    ensures ok.Some? ==> (ok.value <==> Verifies(x, c, of, bits, sig))
  {
    if |bits| < Chunks(|c.keys|) {
      return None;
    }
    var ids := Decode(bits, |c.keys|);
    DecodedSigners(bits, |c.keys|, ids);
    var aggPk := RemovePubkeys(x.keys, c.combined, ids, c.keys, Below(|c.keys|));
    ok := Some(sig == x.sign(of, aggPk));
  }

  /** QC::is_well_formed, messages.rs:373-409. The number of signers is not checked. */
  method QcIsWellFormed<K(!new), S(==, !new)>(x: Scheme<K, S>, c: Committee<K>, qc: SignedQc<S>) returns (ok: Option<bool>)
    requires x.Lawful() && c.Valid(x.keys)
    ensures ok == None <==> qc.of.round > 0 && |qc.bits| < Chunks(|c.keys|)
    ensures ok.Some? ==> (ok.value <==> qc.of.round == 0 || Verifies(x, c, qc.of, qc.bits, qc.sig))
  {
    if qc.of.round == 0 {
      return Some(true);
    }
    ok := VerifyBatch(x, c, qc.of, qc.bits, qc.sig);
  }

  // ---------------------------------------------------------------- sums of signatures

  // The signature that a sum of keys has is the sum of the signatures.
  lemma {:induction false} SignIsAdditive<K(!new), S(!new)>(x: Scheme<K, S>, h: Statement, n: nat, keys: map<nat, K>, sigs: map<nat, S>)
    requires x.Lawful() && keys.Keys == sigs.Keys && forall i :: i in keys ==> sigs[i] == x.sign(h, keys[i])
    ensures x.sign(h, Total(x.keys, n, keys)) == Total(x.sigs, n, sigs)
  {
    if n > 0 {
      SignIsAdditive(x, h, n - 1, keys, sigs);
    }
  }

  // A counted vote: the block it names and its signature.
  datatype Counted<S> = Counted(blkHash: Digest, sig: S)

  ghost function SigsOf<S(!new)>(counted: map<nat, Counted<S>>): map<nat, S> {
    map i | i in counted :: counted[i].sig
  }

  // What the maker has counted, as the value model of a maker records it.
  ghost function BallotsOf<K(!new), S(!new)>(x: Scheme<K, S>, keys: seq<K>, kind: VoteType, r: Round, counted: map<nat, Counted<S>>): map<Node, Ballot>
    requires forall i :: i in counted ==> i < |keys|
  {
    map i | i in counted :: Ballot(counted[i].blkHash, counted[i].sig == x.sign(Statement(counted[i].blkHash, kind, r), keys[i]))
  }

  /** Valid votes for one block add up to a signature that the batch check accepts. */
  lemma GoodVotesVerify<K(!new), S(!new)>(x: Scheme<K, S>, c: Committee<K>, of: Statement, counted: map<nat, Counted<S>>, bits: seq<nat>)
    requires x.Lawful() && (forall i :: i in counted ==> i < |c.keys|) && Signers(bits, |c.keys|) == counted.Keys
    requires BatchOk(BallotsOf(x, c.keys, of.kind, of.round, counted), of.blkHash)
    ensures Verifies(x, c, of, bits, Total(x.sigs, |c.keys|, SigsOf(counted)))
  {
    var b := BallotsOf(x, c.keys, of.kind, of.round, counted);
    forall i | i in counted ensures counted[i].sig == x.sign(of, c.keys[i]) {
      assert b[i] == Ballot(of.blkHash, true);
    }
    SignIsAdditive(x, of, |c.keys|, At(c.keys, counted.Keys), SigsOf(counted));
  }

  // The valid signatures of the given members.
  ghost function ValidSigs<K(!new), S(!new)>(x: Scheme<K, S>, keys: seq<K>, of: Statement, ids: set<nat>): map<nat, S>
    requires forall i :: i in ids ==> i < |keys|
  {
    map i | i in ids :: x.sign(of, keys[i])
  }

  /** The batch check passes exactly when the signatures add up to what valid ones add up to. */
  lemma BatchExact<K(!new), S(!new)>(x: Scheme<K, S>, c: Committee<K>, of: Statement, bits: seq<nat>, sig: S)
    requires x.Lawful()
    ensures Verifies(x, c, of, bits, sig) <==>
            sig == Total(x.sigs, |c.keys|, ValidSigs(x, c.keys, of, Signers(bits, |c.keys|)))
  {
    var ids := Signers(bits, |c.keys|);
    SignIsAdditive(x, of, |c.keys|, At(c.keys, ids), ValidSigs(x, c.keys, of, ids));
  }

  // ---------------------------------------------------------------- the maker

  // The answer of the imperative maker matches that of the value model, except that a batch
  // with bad signatures whose errors cancel out passes the check.
  ghost predicate Matches<S>(n: nat, r: Result<Option<SignedQc<S>>>, model: Result<Option<QC>>) {
    match model
    case Ok(None) => r == Ok(None)
    case Ok(Some(qc)) =>
      && r.Ok? && r.value.Some? && r.value.value.of == Statement(qc.blkHash, qc.kind, qc.round)
      && r.value.value.fastQuorum == qc.fastQuorum && Signers(r.value.value.bits, n) == qc.signers
    case Err => r == Err || r.value.Some?
  }

  // The bitmap names exactly the counted voters and the signature is the sum of theirs.
  ghost predicate Sound<K(!new), S(!new)>(x: Scheme<K, S>, c: Committee<K>, bits: seq<nat>, counted: map<nat, Counted<S>>, sig: S) {
    && x.Lawful() && c.Valid(x.keys)
    && |bits| == Chunks(|c.keys|) && Signers(bits, |c.keys|) == counted.Keys
    && (forall i :: i in counted ==> i < |c.keys|)
    && (counted != map[] ==> sig == Total(x.sigs, |c.keys|, SigsOf(counted)))
  }

  // Until the last certificate, every vote received is counted.
  ghost predicate InStep<S>(used: set<Node>, votes: nat, counted: map<nat, Counted<S>>) {
    used == counted.Keys && votes == |counted| && (votes == 0 <==> counted == map[])
  }

  // The fields of QCMaker, aggregator.rs:80-87.
  datatype Tallied<K, S> = Tallied(used: set<Node>, votes: seq<(K, S)>, weight: nat, aggSign: S, bits: seq<nat>, formed: bool)

  ghost predicate Coherent<K(!new), S(!new)>(x: Scheme<K, S>, c: Committee<K>, m: Tallied<K, S>, counted: map<nat, Counted<S>>) {
    && Sound(x, c, m.bits, counted, m.aggSign)
    && (!m.formed ==> InStep(m.used, |m.votes|, counted))
  }

  // The value model of a maker.
  ghost function ModelOf<K(!new), S(!new)>(x: Scheme<K, S>, c: Committee<K>, kind: VoteType, r: Round, m: Tallied<K, S>, counted: map<nat, Counted<S>>): Maker
    requires Coherent(x, c, m, counted)
  {
    Maker(m.used, BallotsOf(x, c.keys, kind, r, counted), m.weight, m.formed)
  }

  // The bit of the author is cleared and its signature is added to the sum (aggregator.rs:122-138).
  function WithVote<K(!new), S(!new)>(x: Scheme<K, S>, m: Tallied<K, S>, key: K, id: Node, sig: S): Tallied<K, S>
    requires id / 128 < |m.bits|
  {
    m.(used := m.used + {id}, votes := m.votes + [(key, sig)], bits := Clear(m.bits, id),
       aggSign := if |m.votes| + 1 == 1 then sig else x.sigs.add(m.aggSign, sig), weight := m.weight + 1)
  }

  lemma WithVoteKeeps<K(!new), S(!new)>(x: Scheme<K, S>, c: Committee<K>, m: Tallied<K, S>, counted: map<nat, Counted<S>>, v: Vote, sig: S)
    requires Coherent(x, c, m, counted) && !m.formed && v.author < |c.keys| && v.author !in m.used
    ensures v.author / 128 < |m.bits|
    ensures Coherent(x, c, WithVote(x, m, c.keys[v.author], v.author, sig), counted[v.author := Counted(v.blkHash, sig)])
  {
    CountStep(x, c, m.bits, counted, m.aggSign, m.used, |m.votes|, v.author, Counted(v.blkHash, sig));
  }

  lemma WithVoteTallies<K(!new), S(!new)>(x: Scheme<K, S>, c: Committee<K>, m: Tallied<K, S>, counted: map<nat, Counted<S>>, v: Vote, sig: S)
    requires Coherent(x, c, m, counted) && v.author < |c.keys| && v.author / 128 < |m.bits|
    requires Coherent(x, c, WithVote(x, m, c.keys[v.author], v.author, sig), counted[v.author := Counted(v.blkHash, sig)])
    ensures ModelOf(x, c, v.kind, v.round, WithVote(x, m, c.keys[v.author], v.author, sig), counted[v.author := Counted(v.blkHash, sig)])
            == Tally(ModelOf(x, c, v.kind, v.round, m, counted), v, sig == x.sign(Statement(v.blkHash, v.kind, v.round), c.keys[v.author]))
  {
    BallotStep(x, c.keys, v.kind, v.round, counted, v.author, Counted(v.blkHash, sig));
  }

  class QcMaker<K(!new), S(==, !new)> {
    const x: Scheme<K, S>
    const c: Committee<K>
    ghost const kind: VoteType
    ghost const round: Round

    var m: Tallied<K, S>
    ghost var counted: map<nat, Counted<S>>

    ghost predicate Valid()
      reads this
    {
      Coherent(x, c, m, counted)
    }

    ghost function Model(): Maker
      requires Valid()
      reads this
    {
      ModelOf(x, c, kind, round, m, counted)
    }

    // aggregator.rs:90-99
    constructor (x: Scheme<K, S>, c: Committee<K>, noSignature: S, ghost kind: VoteType, ghost round: Round)
      requires x.Lawful() && c.Valid(x.keys)
      ensures Valid() && Model() == EMPTY_MAKER
      ensures this.x == x && this.c == c && this.kind == kind && this.round == round
    {
      this.x, this.c, this.kind, this.round := x, c, kind, round;
      m := Tallied({}, [], 0, noSignature, Full(|c.keys|), false);
      counted := map[];
      NoSigners(|c.keys|);
    }

    ghost predicate IsSigned(v: Vote, sig: S)
      requires v.author < |c.keys|
    {
      sig == x.sign(Statement(v.blkHash, v.kind, v.round), c.keys[v.author])
    }

    // aggregator.rs:146-170 and 177-204
    method Seal(v: Vote, fastQuorum: bool) returns (r: Result<Option<SignedQc<S>>>)
      requires Valid() && counted != map[] && v.kind == kind && v.round == round
      ensures Matches(|c.keys|, r, Certify(Model().ballots, v, fastQuorum))
      ensures r.Ok? ==> r.value.Some? && Verifies(x, c, r.value.value.of, r.value.value.bits, r.value.value.sig)
      ensures r.Ok? <==> m.aggSign == Total(x.sigs, |c.keys|, ValidSigs(x, c.keys, Statement(v.blkHash, kind, round), counted.Keys))
    {
      var of := Statement(v.blkHash, v.kind, v.round);
      BatchExact(x, c, of, m.bits, m.aggSign);
      var ok := VerifyBatch(x, c, of, m.bits, m.aggSign);
      if BatchOk(Model().ballots, v.blkHash) {
        GoodVotesVerify(x, c, of, counted, m.bits);
      }
      r := if ok == Some(true) then Ok(Some(SignedQc(of, m.bits, m.aggSign, fastQuorum))) else Err;
    }

    // aggregator.rs:139-204
    method Finish(v: Vote, checkFast: bool) returns (r: Result<Option<SignedQc<S>>>)
      requires Valid() && !m.formed && counted != map[] && v.kind == kind && v.round == round
      modifies this
      ensures Valid() && Model() == Conclude(c.p, old(Model()), v, checkFast).0
      ensures Matches(|c.keys|, r, Conclude(c.p, old(Model()), v, checkFast).1)
      ensures r.Ok? && r.value.Some? ==> Verifies(x, c, r.value.value.of, r.value.value.bits, r.value.value.sig)
    {
      if m.weight == (if v.kind == Normal then c.p.Quorum() else c.p.SlowCommit()) {
        r := Seal(v, false);
        m := m.(formed := !checkFast);
      } else if v.kind == Normal && m.weight == c.p.FastCommit() {
        r := Seal(v, true);
        m := m.(weight := 0, formed := true);
      } else {
        r := Ok(None);
      }
    }

    /**
     QCMaker::append, aggregator.rs:106-208: the maker does what its value model does, and
     every certificate it emits passes the receiver's check and names exactly the counted voters.
     */
    method Append(v: Vote, sig: S, checkFast: bool) returns (r: Result<Option<SignedQc<S>>>)
      requires Valid() && v.author < |c.keys| && v.kind == kind && v.round == round
      modifies this
      ensures Valid() && Model() == Makers.Append(c.p, old(Model()), v, IsSigned(v, sig), checkFast).0
      ensures Matches(|c.keys|, r, Makers.Append(c.p, old(Model()), v, IsSigned(v, sig), checkFast).1)
      ensures r.Ok? && r.value.Some? ==> Verifies(x, c, r.value.value.of, r.value.value.bits, r.value.value.sig)
    {
      if v.author in m.used {
        return Ok(None);
      }
      if m.formed {
        m := m.(used := m.used + {v.author}, votes := m.votes + [(c.keys[v.author], sig)]);
        return Ok(None);
      }
      WithVoteKeeps(x, c, m, counted, v, sig);
      WithVoteTallies(x, c, m, counted, v, sig);
      m := WithVote(x, m, c.keys[v.author], v.author, sig);
      counted := counted[v.author := Counted(v.blkHash, sig)];
      r := Finish(v, checkFast);
    }
  }

  lemma BallotStep<K(!new), S(!new)>(x: Scheme<K, S>, keys: seq<K>, kind: VoteType, r: Round, counted: map<nat, Counted<S>>, id: nat, v: Counted<S>)
    requires (forall i :: i in counted ==> i < |keys|) && id < |keys|
    ensures BallotsOf(x, keys, kind, r, counted[id := v])
            == BallotsOf(x, keys, kind, r, counted)[id := Ballot(v.blkHash, v.sig == x.sign(Statement(v.blkHash, kind, r), keys[id]))]
  {}

  lemma NoSigners(n: nat)
    ensures Signers(Full(n), n) == {}
  {
    forall i | i in Below(n) ensures IsSet(Full(n), i) {
      FullIsSet(n, i);
    }
  }

  lemma AddSignature<S(!new)>(g: Group<S>, n: nat, counted: map<nat, Counted<S>>, id: nat, v: Counted<S>)
    requires g.Lawful() && id < n && id !in counted
    ensures Total(g, n, SigsOf(counted[id := v])) == g.add(Total(g, n, SigsOf(counted)), v.sig)
    ensures counted == map[] ==> Total(g, n, SigsOf(counted[id := v])) == v.sig
  {
    assert SigsOf(counted[id := v]) == SigsOf(counted)[id := v.sig];
    TotalInsert(g, n, SigsOf(counted), id, v.sig);
    if counted == map[] {
      TotalOfNone(g, n, SigsOf(counted));
      assert g.add(g.zero, v.sig) == g.add(v.sig, g.zero);
    }
  }

  lemma CountStep<K(!new), S(!new)>(x: Scheme<K, S>, c: Committee<K>, bits: seq<nat>, counted: map<nat, Counted<S>>, sig: S,
                                    used: set<Node>, votes: nat, id: nat, v: Counted<S>)
    requires Sound(x, c, bits, counted, sig) && InStep(used, votes, counted) && id < |c.keys| && id !in used
    ensures id / 128 < |bits| && InStep(used + {id}, votes + 1, counted[id := v])
    ensures Sound(x, c, Clear(bits, id), counted[id := v], if votes + 1 == 1 then v.sig else x.sigs.add(sig, v.sig))
  {
    ClearSigner(bits, |c.keys|, id);
    OneMoreKey(counted, id, v);
    AddSignature(x.sigs, |c.keys|, counted, id, v);
  }

  lemma ClearSigner(bits: seq<nat>, n: nat, id: nat)
    requires |bits| == Chunks(n) && id < n
    ensures id / 128 < |bits| && Signers(Clear(bits, id), n) == Signers(bits, n) + {id}
  {
    forall j | j in Below(n) ensures IsSet(Clear(bits, id), j) <==> j != id && IsSet(bits, j) {
      ClearIsSet(bits, id, j);
    }
  }
}
