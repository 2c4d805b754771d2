/** What extraction stores of a model's proposals, and what a claim's confidence is made of. */
module ClaimConfidence {
  import opened Options
  import opened Texts
  import opened ClaimSupport
  import opened Grounding

  // ------------------------------------------------------------------ what is stored

  predicate HasClaim(item: Item) {
    Strip(item.claim) != ""
  }

  /** The proposals that make a claim. */
  function Claiming(items: seq<Item>): seq<Item> {
    if items == [] then []
    else
      var before, item := Claiming(items[..|items| - 1]), items[|items| - 1];
      if HasClaim(item) then before + [item] else before
  }

  /** What a piece of evidence says about the proposal it was made of. */
  ghost predicate MadeOf(w: Tests, chunk: Chunk, e: Evidence, item: Item) {
    && e.claim == Strip(item.claim) && e.quote == Strip(item.quote) && e.chunk == chunk && e.supports == None
    && 0.0 <= e.confidence <= 1.0 && (0.0 <= item.confidence <= 1.0 ==> e.confidence == item.confidence)
    && (e.status == Rejected <==>
          !QuoteVerified(w, item.quote, chunk.text) || w.support(item.claim, item.quote) in {Contradicts, Unrelated})
    && (e.verdict == if QuoteVerified(w, item.quote, chunk.text) then Some(w.support(item.claim, item.quote)) else None)
  }

  lemma ExaminedMadeOf(w: Tests, chunk: Chunk, item: Item)
    ensures MadeOf(w, chunk, Examined(w, chunk, item), item)
  {
    hide Strip;
    hide QuoteVerified;
  }

  /** Every proposal with a claim is stored, in its order, rejected or not; it is rejected exactly when its
      quote is not verified in the chunk, or is found to contradict the claim or to be unrelated to it. */
  lemma {:induction false} EverythingIsStored(w: Tests, chunk: Chunk, items: seq<Item>)
    ensures var evidence, claiming := Extraction(w, chunk, items), Claiming(items);
      |evidence| == |claiming| && forall k :: 0 <= k < |claiming| ==> MadeOf(w, chunk, evidence[k], claiming[k])
  {
    if items != [] {
      EverythingIsStored(w, chunk, items[..|items| - 1]);
      ExaminedMadeOf(w, chunk, items[|items| - 1]);
      hide MadeOf;
      hide Examined;
      hide Strip;
    }
  }

  // ------------------------------------------------------------------ confidence

  /** What a piece weighs: its confidence, as far as its source is trusted. */
  function Weight(e: Evidence): real {
    TierWeight(e.chunk.tier) * e.confidence
  }

  lemma {:induction false} BestMeans(evidence: seq<Evidence>, ids: seq<nat>)
    requires Ids(ids, |evidence|) && ids != []
    ensures exists k :: 0 <= k < |ids| && Best(evidence, ids) == Weight(evidence[ids[k]])
    ensures forall k :: 0 <= k < |ids| ==> Weight(evidence[ids[k]]) <= Best(evidence, ids)
  {
    hide TierWeight;
    var n := |ids| - 1;
    if n > 0 {
      BestMeans(evidence, ids[..n]);
    }
    assert Weight(evidence[ids[n]]) == TierWeight(evidence[ids[n]].chunk.tier) * evidence[ids[n]].confidence;
  }

  lemma {:induction false} CountIsOf(evidence: seq<Evidence>, ids: seq<nat>, i: nat)
    requires Ids(ids, |evidence|) && i < |ids|
    ensures Ids(ids[..i] + ids[i + 1..], |evidence|)
    ensures CountContradicted(evidence, ids)
      == CountContradicted(evidence, ids[..i] + ids[i + 1..]) + (if evidence[ids[i]].status == Contradicted then 1 else 0)
  {
    var n, rest := |ids| - 1, ids[..i] + ids[i + 1..];
    if i == n {
      assert rest == ids[..n];
    } else {
      CountIsOf(evidence, ids[..n], i);
      assert rest[..n - 1] == ids[..n][..i] + ids[..n][i + 1..] && rest[n - 1] == ids[n];
    }
  }

  /** The last of one order, found in the other. */
  lemma TakenOut(a: seq<nat>, b: seq<nat>) returns (i: nat)
    requires multiset(a) == multiset(b) && a != []
    ensures i < |b| && b[i] == a[|a| - 1] && multiset(a[..|a| - 1]) == multiset(b[..i] + b[i + 1..])
  {
    var n := |a| - 1;
    assert a == a[..n] + [a[n]];
    assert a[n] in multiset(b);
    i :| 0 <= i < |b| && b[i] == a[n];
    assert b == b[..i] + [b[i]] + b[i + 1..];
    assert multiset(a[..n]) == multiset(a) - multiset{a[n]};
    assert multiset(b[..i] + b[i + 1..]) == multiset(b) - multiset{b[i]};
  }

  lemma NoneLeft(b: seq<nat>)
    requires multiset(b) == multiset([])
    ensures b == []
  {
    assert |multiset(b)| == |b|;
  }

  lemma {:induction false} CountPermutes(evidence: seq<Evidence>, a: seq<nat>, b: seq<nat>)
    requires Ids(a, |evidence|) && Ids(b, |evidence|) && multiset(a) == multiset(b)
    ensures CountContradicted(evidence, a) == CountContradicted(evidence, b)
  {
    if a == [] {
      NoneLeft(b);
    } else {
      var i := TakenOut(a, b);
      CountIsOf(evidence, b, i);
      CountPermutes(evidence, a[..|a| - 1], b[..i] + b[i + 1..]);
    }
  }

  lemma MembersPermute(a: seq<nat>, b: seq<nat>, k: nat) returns (j: nat)
    requires multiset(a) == multiset(b) && k < |a|
    ensures j < |b| && b[j] == a[k]
  {
    assert a[k] in multiset(b);
    j :| 0 <= j < |b| && b[j] == a[k];
  }

  lemma BestPermutes(evidence: seq<Evidence>, a: seq<nat>, b: seq<nat>)
    requires Ids(a, |evidence|) && Ids(b, |evidence|) && a != [] && b != [] && multiset(a) == multiset(b)
    ensures Best(evidence, a) == Best(evidence, b)
  {
    BestMeans(evidence, a);
    BestMeans(evidence, b);
    hide Best;
    hide Weight;
    var k :| 0 <= k < |a| && Best(evidence, a) == Weight(evidence[a[k]]);
    var j := MembersPermute(a, b, k);
    var k1 :| 0 <= k1 < |b| && Best(evidence, b) == Weight(evidence[b[k1]]);
    var j1 := MembersPermute(b, a, k1);
  }

  /** The confidence of a claim does not depend on the order in which its evidence came in. */
  lemma ConfidenceIgnoresOrder(evidence: seq<Evidence>, a: seq<nat>, b: seq<nat>)
    requires Ids(a, |evidence|) && Ids(b, |evidence|) && multiset(a) == multiset(b)
    ensures Confidence(evidence, a) == Confidence(evidence, b)
  {
    SameLength(a, b);
    CountPermutes(evidence, a, b);
    hide *;
    if a != [] {
      BestPermutes(evidence, a, b);
      ConfidenceIsLeft(evidence, a);
      ConfidenceIsLeft(evidence, b);
    } else {
      NoneLeft(b);
    }
  }

  lemma SameLength(a: seq<nat>, b: seq<nat>)
    requires multiset(a) == multiset(b)
    ensures |a| == |b|
  {
    assert |multiset(a)| == |a| && |multiset(b)| == |b|;
  }

  /** The piece is found contradicted. */
  function Disputed(evidence: seq<Evidence>, id: nat): seq<Evidence>
    requires id < |evidence|
  {
    evidence[id := evidence[id].(status := Contradicted)]
  }

  lemma {:induction false} BestUndisputed(evidence: seq<Evidence>, ids: seq<nat>, id: nat)
    requires Ids(ids, |evidence|) && ids != [] && id < |evidence|
    ensures Best(Disputed(evidence, id), ids) == Best(evidence, ids)
  {
    hide TierWeight;
    if |ids| > 1 {
      BestUndisputed(evidence, ids[..|ids| - 1], id);
    }
  }

  lemma {:induction false} CountDisputed(evidence: seq<Evidence>, ids: seq<nat>, id: nat)
    requires Ids(ids, |evidence|) && id < |evidence| && NoRepeats(ids) && evidence[id].status != Contradicted
    ensures CountContradicted(Disputed(evidence, id), ids) == CountContradicted(evidence, ids) + (if id in ids then 1 else 0)
  {
    if ids != [] {
      var n := |ids| - 1;
      CountDisputed(evidence, ids[..n], id);
      assert ids == ids[..n] + [ids[n]];
    }
  }

  /** What is left of a claim's confidence. */
  function Left(raised: real, contradicted: nat): real {
    var r := (if 1.0 < raised then 1.0 else raised) - 0.15 * contradicted as real;
    if r < 0.0 then 0.0 else r
  }

  lemma ConfidenceIsLeft(evidence: seq<Evidence>, ids: seq<nat>)
    requires Ids(ids, |evidence|) && ids != []
    ensures Confidence(evidence, ids) == Left(Grown(Best(evidence, ids), |ids|), CountContradicted(evidence, ids))
  {
    hide Best;
    hide CountContradicted;
  }

  lemma LeftFalls(raised: real, k: nat)
    ensures Left(raised, k) - 0.15 <= Left(raised, k + 1) <= Left(raised, k)
    ensures 0.0 < Left(raised, k + 1) ==> Left(raised, k + 1) == Left(raised, k) - 0.15
  {
  }

  lemma DisputedIds(evidence: seq<Evidence>, ids: seq<nat>, id: nat)
    requires Ids(ids, |evidence|) && id in ids
    ensures id < |evidence| && Ids(ids, |Disputed(evidence, id)|)
  {
  }

  /** A piece of a claim's evidence that is found contradicted takes 0.15 off the claim's confidence, until
      nothing is left of it. */
  lemma DisputeCosts(evidence: seq<Evidence>, ids: seq<nat>, id: nat)
    requires Ids(ids, |evidence|) && NoRepeats(ids) && id in ids && evidence[id].status != Contradicted
    ensures var before, after := Confidence(evidence, ids), Confidence(Disputed(evidence, id), ids);
      before - 0.15 <= after <= before && (0.0 < after ==> after == before - 0.15)
  {
    hide *;
    DisputedIds(evidence, ids, id);
    BestUndisputed(evidence, ids, id);
    CountDisputed(evidence, ids, id);
    ConfidenceIsLeft(evidence, ids);
    ConfidenceIsLeft(Disputed(evidence, id), ids);
    LeftFalls(Grown(Best(evidence, ids), |ids|), CountContradicted(evidence, ids));
  }

  /** A claim with a single piece of evidence is as certain as the piece, as far as its source is trusted. */
  lemma LoneConfidence(evidence: seq<Evidence>, id: nat)
    requires id < |evidence| && evidence[id].status != Contradicted && evidence[id].confidence == 1.0
    ensures var tier := evidence[id].chunk.tier;
      Confidence(evidence, [id])
      == if tier == 1 then 1.0 else if tier == 2 then 0.8 else if tier == 3 then 0.6 else if tier == 4 then 0.4 else 0.25
  {
    assert CountContradicted(evidence, [id][..0]) == 0;
  }
}
