/** From model output to claims: what is extracted, what is rejected, and which claim each piece of
    evidence ends up in. */
module Grounding {
  import opened Options
  import opened Texts
  import Quotes
  import opened ClaimSupport

  /** What a model proposes for a chunk. */
  datatype Item = Item(claim: string, quote: string, confidence: real)

  datatype Chunk = Chunk(text: string, tier: int)

  datatype Evidence = Evidence(
    claim: string,
    quote: string,
    chunk: Chunk,
    confidence: real,
    status: EvidenceStatus,
    verdict: Option<Verdict>,
    supports: Option<nat>)

  datatype Claim = Claim(text: string, supportedBy: seq<nat>, confidence: real)

  /** Evidence and claims go by their number. */
  datatype Store = Store(evidence: seq<Evidence>, claims: seq<Claim>)

  const EMPTY: Store := Store([], [])

  /** The similarity of texts, the support verdict, and when two claims count as the same. */
  datatype Tests = Tests(
    ratio: Quotes.Similarity,
    support: (string, string) -> Verdict,
    same: (string, string) -> bool)

  function Clamp(x: real): real {
    if x < 0.0 then 0.0 else if 1.0 < x then 1.0 else x
  }

  // ------------------------------------------------------------------ extraction

  ghost predicate QuoteVerified(w: Tests, quote: string, chunk: string) {
    Quotes.Judged(quote, Quotes.Norm(chunk), w.ratio) in {Quotes.Exact, Quotes.Fuzzy}
  }

  ghost function Examined(w: Tests, chunk: Chunk, item: Item): Evidence {
    var verdict := if QuoteVerified(w, item.quote, chunk.text) then Some(w.support(item.claim, item.quote)) else None;
    Evidence(Strip(item.claim), Strip(item.quote), chunk, Clamp(item.confidence),
             if verdict.Some? then StatusFor(Extracted, verdict.value) else Rejected, verdict, None)
  }

  /** Items without a claim are dropped; rejected ones are stored as well. */
  ghost function Extraction(w: Tests, chunk: Chunk, items: seq<Item>): seq<Evidence> {
    if items == [] then []
    else
      var before, item := Extraction(w, chunk, items[..|items| - 1]), items[|items| - 1];
      if Strip(item.claim) == "" then before else before + [Examined(w, chunk, item)]
  }

  // ------------------------------------------------------------------ consolidation

  /** The first claim that counts as the same. */
  function Match(w: Tests, claims: seq<Claim>, text: string, i: nat): (c: Option<nat>)
    requires i <= |claims|
    ensures c.Some? ==> i <= c.value < |claims| && w.same(claims[c.value].text, text)
    ensures c.Some? ==> forall k :: i <= k < c.value ==> !w.same(claims[k].text, text)
    ensures c.None? ==> forall k :: i <= k < |claims| ==> !w.same(claims[k].text, text)
    decreases |claims| - i
  {
    if i == |claims| then None else if w.same(claims[i].text, text) then Some(i) else Match(w, claims, text, i + 1)
  }

  datatype Tally = Tally(store: Store, created: nat, duplicates: nat)

  /** A piece of evidence and a claim name each other. */
  function Joined(s: Store, id: nat, c: nat): Store
    requires id < |s.evidence| && c < |s.claims|
  {
    var backing := s.claims[c].supportedBy;
    Store(s.evidence[id := s.evidence[id].(supports := Some(c))],
          s.claims[c := s.claims[c].(supportedBy := if id in backing then backing else backing + [id])])
  }

  function WithClaim(s: Store, text: string): Store {
    s.(claims := s.claims + [Claim(text, [], 0.0)])
  }

  /** Attaches one piece of evidence to its claim, which may be new. */
  function Attached(w: Tests, s: Store, id: nat): Store
    requires id < |s.evidence|
  {
    var ev := s.evidence[id];
    if ev.status == Rejected then s
    else
      var found := Match(w, s.claims, ev.claim, 0);
      if found.Some? then Joined(s, id, found.value) else Joined(WithClaim(s, ev.claim), id, |s.claims|)
  }

  predicate Ids(ids: seq<nat>, n: nat) {
    forall k :: 0 <= k < |ids| ==> ids[k] < n
  }

  function AttachedAll(w: Tests, s: Store, ids: seq<nat>): (t: Tally)
    requires Ids(ids, |s.evidence|)
    ensures |t.store.evidence| == |s.evidence| && |s.claims| <= |t.store.claims|
  {
    if ids == [] then Tally(s, 0, 0)
    else
      var before, id := AttachedAll(w, s, ids[..|ids| - 1]), ids[|ids| - 1];
      var s1 := Attached(w, before.store, id);
      if before.store.evidence[id].status == Rejected then before
      else if |s1.claims| > |before.store.claims| then Tally(s1, before.created + 1, before.duplicates)
      else Tally(s1, before.created, before.duplicates + 1)
  }

  function TierWeight(tier: int): real {
    if tier == 1 then 1.0 else if tier == 2 then 0.8 else if tier == 3 then 0.6 else if tier == 4 then 0.4 else 0.25
  }

  function Best(evidence: seq<Evidence>, ids: seq<nat>): real
    requires Ids(ids, |evidence|) && ids != []
  {
    var e := evidence[ids[|ids| - 1]];
    var weight := TierWeight(e.chunk.tier) * e.confidence;
    if |ids| == 1 then weight
    else
      var before := Best(evidence, ids[..|ids| - 1]);
      if before < weight then weight else before
  }

  function CountContradicted(evidence: seq<Evidence>, ids: seq<nat>): nat
    requires Ids(ids, |evidence|)
  {
    if ids == [] then 0
    else CountContradicted(evidence, ids[..|ids| - 1]) + (if evidence[ids[|ids| - 1]].status == Contradicted then 1 else 0)
  }

  /** The confidence of a claim: the best piece, more for every further one, less for contradicted ones. */
  function Confidence(evidence: seq<Evidence>, ids: seq<nat>): real
    requires Ids(ids, |evidence|)
  {
    if ids == [] then 0.0
    else
      var raised := Best(evidence, ids) * (1.0 + 0.12 * (|ids| - 1) as real);
      var capped := if 1.0 < raised then 1.0 else raised;
      var r := capped - 0.15 * CountContradicted(evidence, ids) as real;
      if r < 0.0 then 0.0 else r
  }

  /** What all claims are supported by exists. */
  predicate Backed(s: Store) {
    forall c :: 0 <= c < |s.claims| ==> Ids(s.claims[c].supportedBy, |s.evidence|)
  }

  function Weighed(s: Store, n: nat): (claims: seq<Claim>)
    requires Backed(s) && n <= |s.claims|
    ensures |claims| == n
    ensures forall c :: 0 <= c < n ==> claims[c] == s.claims[c].(confidence := Confidence(s.evidence, s.claims[c].supportedBy))
  {
    if n == 0 then [] else Weighed(s, n - 1) + [s.claims[n - 1].(confidence := Confidence(s.evidence, s.claims[n - 1].supportedBy))]
  }

  lemma {:induction false} StaysBacked(w: Tests, s: Store, ids: seq<nat>)
    requires Backed(s) && Ids(ids, |s.evidence|)
    ensures Backed(AttachedAll(w, s, ids).store)
  {
    if ids != [] {
      StaysBacked(w, s, ids[..|ids| - 1]);
      var before := AttachedAll(w, s, ids[..|ids| - 1]).store;
      AttachBacked(w, before, ids[|ids| - 1]);
      hide Attached;
    }
  }

  lemma AttachBacked(w: Tests, s: Store, id: nat)
    requires Backed(s) && id < |s.evidence|
    ensures Backed(Attached(w, s, id))
  {
  }

  function Consolidated(w: Tests, s: Store, ids: seq<nat>): (t: Tally)
    requires Backed(s) && Ids(ids, |s.evidence|)
  {
    var t := AttachedAll(w, s, ids);
    StaysBacked(w, s, ids);
    t.(store := t.store.(claims := Weighed(t.store, |t.store.claims|)))
  }

  // ------------------------------------------------------------------ what every round keeps

  /** The verdict that evidence of a verified quote needs not to be rejected. */
  ghost predicate Grounded(w: Tests, e: Evidence) {
    e.verdict.Some? && e.verdict.value != Contradicts && e.verdict.value != Unrelated
  }

  /** Evidence that was extracted under these tests. */
  ghost predicate Sound(w: Tests, e: Evidence) {
    && (e.status == Rejected <==> !Grounded(w, e))
    && (e.verdict.Some? ==> exists quote :: QuoteVerified(w, quote, e.chunk.text) && Strip(quote) == e.quote)
    && (e.supports.Some? ==> e.status != Rejected)
  }

  predicate NoRepeats(ids: seq<nat>) {
    forall i, j :: 0 <= i < j < |ids| ==> ids[i] != ids[j]
  }

  /** Evidence and claims name each other, and nothing is named twice. */
  predicate Linked(s: Store) {
    && Backed(s)
    && (forall c :: 0 <= c < |s.claims| ==> NoRepeats(s.claims[c].supportedBy))
    && (forall c, i :: 0 <= c < |s.claims| && 0 <= i < |s.evidence| ==>
          (i in s.claims[c].supportedBy <==> s.evidence[i].supports == Some(c)))
    && (forall i :: 0 <= i < |s.evidence| && s.evidence[i].supports.Some? ==> s.evidence[i].supports.value < |s.claims|)
  }

  /** No claim counts as the same as an earlier one, and evidence is with the first claim that counts
      as the same as its own. */
  ghost predicate Distinct(w: Tests, s: Store) {
    && (forall i, j :: 0 <= i < j < |s.claims| ==> !w.same(s.claims[i].text, s.claims[j].text))
    && (forall i :: 0 <= i < |s.evidence| && s.evidence[i].supports.Some? ==>
          s.evidence[i].supports == Match(w, s.claims, s.evidence[i].claim, 0))
  }

  ghost predicate Kept(w: Tests, s: Store) {
    && Linked(s) && Distinct(w, s)
    && (forall i :: 0 <= i < |s.evidence| ==> Sound(w, s.evidence[i]))
  }

  /** Two texts with the same key always count as the same. */
  ghost predicate Reflexive(w: Tests) {
    forall text :: w.same(text, text)
  }

  lemma {:induction false} MatchExtended(w: Tests, claims: seq<Claim>, claim: Claim, text: string, i: nat)
    requires i <= |claims|
    ensures var found := Match(w, claims, text, i);
      Match(w, claims + [claim], text, i)
      == if found.Some? then found else if w.same(claim.text, text) then Some(|claims|) else None
    decreases |claims| - i
  {
    if i < |claims| {
      MatchExtended(w, claims, claim, text, i + 1);
    }
  }

  lemma {:induction false} MatchSameTexts(w: Tests, claims: seq<Claim>, claims1: seq<Claim>, text: string, i: nat)
    requires |claims| == |claims1| && forall c :: 0 <= c < |claims| ==> claims1[c].text == claims[c].text
    requires i <= |claims|
    ensures Match(w, claims1, text, i) == Match(w, claims, text, i)
    decreases |claims| - i
  {
    if i < |claims| {
      MatchSameTexts(w, claims, claims1, text, i + 1);
    }
  }

  /** A new claim that counts as the same as no other. */
  lemma WithClaimKeeps(w: Tests, s: Store, text: string)
    requires Linked(s) && Distinct(w, s) && Match(w, s.claims, text, 0).None?
    ensures Linked(WithClaim(s, text)) && Distinct(w, WithClaim(s, text))
    ensures w.same(text, text) ==> Match(w, WithClaim(s, text).claims, text, 0) == Some(|s.claims|)
  {
    var claim := Claim(text, [], 0.0);
    MatchExtended(w, s.claims, claim, text, 0);
    forall i | 0 <= i < |s.evidence| && s.evidence[i].supports.Some?
      ensures s.evidence[i].supports == Match(w, s.claims + [claim], s.evidence[i].claim, 0)
    {
      MatchExtended(w, s.claims, claim, s.evidence[i].claim, 0);
    }
    hide Match;
  }

  /** Evidence that is with the claim already. */
  lemma JoinedAgain(s: Store, id: nat, c: nat)
    requires Linked(s) && id < |s.evidence| && c < |s.claims| && s.evidence[id].supports == Some(c)
    ensures Joined(s, id, c) == s
  {
  }

  lemma JoinedLinked(s: Store, id: nat, c: nat)
    requires Linked(s) && id < |s.evidence| && c < |s.claims| && s.evidence[id].supports.None?
    ensures Linked(Joined(s, id, c))
  {
    var s1 := Joined(s, id, c);
    assert id !in s.claims[c].supportedBy;
    assert s1.claims[c].supportedBy == s.claims[c].supportedBy + [id];
    forall d, i | 0 <= d < |s1.claims| && 0 <= i < |s1.evidence|
      ensures i in s1.claims[d].supportedBy <==> s1.evidence[i].supports == Some(d)
    {
      assert i in s.claims[d].supportedBy <==> s.evidence[i].supports == Some(d);
    }
  }

  lemma JoinedDistinct(w: Tests, s: Store, id: nat, c: nat)
    requires Distinct(w, s) && id < |s.evidence| && c < |s.claims| && Match(w, s.claims, s.evidence[id].claim, 0) == Some(c)
    ensures Distinct(w, Joined(s, id, c))
  {
    var s1 := Joined(s, id, c);
    forall i | 0 <= i < |s1.evidence| && s1.evidence[i].supports.Some?
      ensures s1.evidence[i].supports == Match(w, s1.claims, s1.evidence[i].claim, 0)
    {
      MatchSameTexts(w, s.claims, s1.claims, s.evidence[i].claim, 0);
    }
    hide Match;
  }

  lemma JoinedKeeps(w: Tests, s: Store, id: nat, c: nat)
    requires Linked(s) && Distinct(w, s) && id < |s.evidence| && c < |s.claims|
    requires Match(w, s.claims, s.evidence[id].claim, 0) == Some(c)
    ensures Linked(Joined(s, id, c)) && Distinct(w, Joined(s, id, c))
  {
    if s.evidence[id].supports.Some? {
      assert s.evidence[id].supports == Some(c);
      JoinedAgain(s, id, c);
    } else {
      JoinedLinked(s, id, c);
      JoinedDistinct(w, s, id, c);
    }
    hide Joined;
    hide Linked;
    hide Match;
  }

  lemma AttachKeeps(w: Tests, s: Store, id: nat)
    requires Kept(w, s) && Reflexive(w) && id < |s.evidence|
    ensures Kept(w, Attached(w, s, id))
  {
    var ev := s.evidence[id];
    if ev.status != Rejected {
      var found := Match(w, s.claims, ev.claim, 0);
      if found.Some? {
        JoinedKeeps(w, s, id, found.value);
      } else {
        assert w.same(ev.claim, ev.claim);
        WithClaimKeeps(w, s, ev.claim);
        JoinedKeeps(w, WithClaim(s, ev.claim), id, |s.claims|);
      }
      hide Linked;
      hide Distinct;
      hide Match;
      forall i | 0 <= i < |s.evidence| ensures Sound(w, Attached(w, s, id).evidence[i]) {
        assert Sound(w, s.evidence[i]);
      }
    }
  }

  lemma {:induction false} AttachAllKeeps(w: Tests, s: Store, ids: seq<nat>)
    requires Kept(w, s) && Reflexive(w) && Ids(ids, |s.evidence|)
    ensures Kept(w, AttachedAll(w, s, ids).store)
  {
    hide Attached;
    hide Kept;
    hide Reflexive;
    if ids != [] {
      AttachAllKeeps(w, s, ids[..|ids| - 1]);
      AttachKeeps(w, AttachedAll(w, s, ids[..|ids| - 1]).store, ids[|ids| - 1]);
    }
  }

  /** New confidences change nothing else. */
  lemma WeighedKeeps(w: Tests, s: Store)
    requires Kept(w, s)
    ensures Kept(w, s.(claims := Weighed(s, |s.claims|)))
  {
    WeighedLinked(s);
    WeighedDistinct(w, s);
    hide Weighed;
    hide Linked;
    hide Distinct;
    hide Sound;
  }

  lemma WeighedLinked(s: Store)
    requires Linked(s)
    ensures Linked(s.(claims := Weighed(s, |s.claims|)))
  {
    hide Confidence;
  }

  lemma WeighedDistinct(w: Tests, s: Store)
    requires Backed(s) && Distinct(w, s)
    ensures Distinct(w, s.(claims := Weighed(s, |s.claims|)))
  {
    var claims := Weighed(s, |s.claims|);
    forall i | 0 <= i < |s.evidence| ensures Match(w, claims, s.evidence[i].claim, 0) == Match(w, s.claims, s.evidence[i].claim, 0) {
      MatchSameTexts(w, s.claims, claims, s.evidence[i].claim, 0);
    }
    hide Match;
    hide Confidence;
    hide Backed;
  }

  lemma ConsolidateKeeps(w: Tests, s: Store, ids: seq<nat>)
    requires Kept(w, s) && Reflexive(w) && Ids(ids, |s.evidence|)
    ensures Kept(w, Consolidated(w, s, ids).store)
  {
    AttachAllKeeps(w, s, ids);
    WeighedKeeps(w, AttachedAll(w, s, ids).store);
    hide Weighed;
    hide AttachedAll;
  }

  // ------------------------------------------------------------------ rounds

  datatype Proposal = Proposal(chunk: Chunk, items: seq<Item>)

  ghost function Extended(w: Tests, s: Store, proposals: seq<Proposal>): (r: Store)
    ensures r.claims == s.claims && |s.evidence| <= |r.evidence|
  {
    if proposals == [] then s
    else
      var before, p := Extended(w, s, proposals[..|proposals| - 1]), proposals[|proposals| - 1];
      before.(evidence := before.evidence + Extraction(w, p.chunk, p.items))
  }

  function Numbers(from: nat, to: nat): (ids: seq<nat>)
    requires from <= to
    ensures |ids| == to - from && forall k :: 0 <= k < |ids| ==> ids[k] == from + k
  {
    if from == to then [] else Numbers(from, to - 1) + [to - 1]
  }

  /** One round: everything proposed is extracted, and the new evidence is consolidated. */
  ghost function Round(w: Tests, s: Store, proposals: seq<Proposal>): Tally
    requires Backed(s)
  {
    var s1 := Extended(w, s, proposals);
    assert Backed(s1) by { StillBacked(w, s, proposals); }
    Consolidated(w, s1, Numbers(|s.evidence|, |s1.evidence|))
  }

  lemma StillBacked(w: Tests, s: Store, proposals: seq<Proposal>)
    requires Backed(s)
    ensures Backed(Extended(w, s, proposals))
  {
  }

  /** Evidence fresh from extraction. */
  ghost predicate AllFresh(w: Tests, es: seq<Evidence>) {
    forall i :: 0 <= i < |es| ==> Sound(w, es[i]) && es[i].supports.None?
  }

  lemma ExaminedSound(w: Tests, chunk: Chunk, item: Item)
    ensures Sound(w, Examined(w, chunk, item))
  {
    hide Strip;
    var e := Examined(w, chunk, item);
    if e.verdict.Some? {
      assert QuoteVerified(w, item.quote, e.chunk.text) && Strip(item.quote) == e.quote;
    }
    hide QuoteVerified;
  }

  lemma {:induction false} ExtractionFresh(w: Tests, chunk: Chunk, items: seq<Item>)
    ensures AllFresh(w, Extraction(w, chunk, items))
  {
    if items != [] {
      ExtractionFresh(w, chunk, items[..|items| - 1]);
      ExaminedSound(w, chunk, items[|items| - 1]);
      assert Examined(w, chunk, items[|items| - 1]).supports.None?;
      hide Sound;
      hide Strip;
      hide Examined;
    }
  }

  lemma {:induction false} ExtractKeeps(w: Tests, s: Store, proposals: seq<Proposal>)
    requires Kept(w, s)
    ensures Kept(w, Extended(w, s, proposals))
  {
    if proposals != [] {
      var n := |proposals| - 1;
      var p := proposals[n];
      ExtractKeeps(w, s, proposals[..n]);
      ExtractionFresh(w, p.chunk, p.items);
      NewEvidenceKeeps(w, Extended(w, s, proposals[..n]), Extraction(w, p.chunk, p.items));
      hide Kept;
    }
  }

  lemma NewEvidenceKeeps(w: Tests, s: Store, es: seq<Evidence>)
    requires Kept(w, s) && AllFresh(w, es)
    ensures Kept(w, s.(evidence := s.evidence + es))
  {
    hide Sound;
    hide Match;
    var s1 := s.(evidence := s.evidence + es);
    forall c, i | 0 <= c < |s1.claims| && 0 <= i < |s1.evidence|
      ensures i in s1.claims[c].supportedBy <==> s1.evidence[i].supports == Some(c)
    {
      if i in s1.claims[c].supportedBy {
        assert Ids(s.claims[c].supportedBy, |s.evidence|);
      }
    }
  }

  lemma RoundKeeps(w: Tests, s: Store, proposals: seq<Proposal>)
    requires Kept(w, s) && Reflexive(w)
    ensures Kept(w, Round(w, s, proposals).store)
  {
    var s1 := Extended(w, s, proposals);
    ExtractKeeps(w, s, proposals);
    ConsolidateKeeps(w, s1, Numbers(|s.evidence|, |s1.evidence|));
    hide Consolidated;
    hide Extended;
  }

  /** Over any number of rounds: every piece of evidence that supports a claim has a verified quote
      and a verdict that does not reject it; evidence is in exactly the claim it names; and no claim
      counts as the same as an earlier one. */
  ghost function After(w: Tests, rounds: seq<seq<Proposal>>): (s: Store)
    requires Reflexive(w)
    ensures Kept(w, s)
  {
    if rounds == [] then EMPTY
    else
      var before := After(w, rounds[..|rounds| - 1]);
      RoundKeeps(w, before, rounds[|rounds| - 1]);
      Round(w, before, rounds[|rounds| - 1]).store
  }

  // ------------------------------------------------------------------ counting and replaying

  function CountAccepted(evidence: seq<Evidence>, ids: seq<nat>): nat
    requires Ids(ids, |evidence|)
  {
    if ids == [] then 0
    else CountAccepted(evidence, ids[..|ids| - 1]) + (if evidence[ids[|ids| - 1]].status == Rejected then 0 else 1)
  }

  /** Attaching changes what evidence supports, and nothing else about it. */
  predicate SameBut(evidence: seq<Evidence>, evidence1: seq<Evidence>) {
    |evidence| == |evidence1| && forall i :: 0 <= i < |evidence| ==>
      && evidence1[i] == evidence[i].(supports := evidence1[i].supports)
      && (evidence[i].supports.Some? ==> evidence1[i].supports.Some?)
  }

  /** What is new and what is not add up to what was accepted; each new claim is counted once. */
  lemma {:induction false} TallyAddsUp(w: Tests, s: Store, ids: seq<nat>)
    requires Ids(ids, |s.evidence|)
    ensures var t := AttachedAll(w, s, ids);
      && t.created + t.duplicates == CountAccepted(s.evidence, ids)
      && |t.store.claims| == |s.claims| + t.created
      && SameBut(s.evidence, t.store.evidence)
      && forall k :: 0 <= k < |ids| ==> t.store.evidence[ids[k]].status == Rejected || t.store.evidence[ids[k]].supports.Some?
  {
    hide Attached;
    if ids != [] {
      var before, id := AttachedAll(w, s, ids[..|ids| - 1]).store, ids[|ids| - 1];
      TallyAddsUp(w, s, ids[..|ids| - 1]);
      AttachedOnce(w, before, id);
    }
  }

  /** One piece of evidence adds a claim at most, and ends up with one unless it was rejected. */
  lemma AttachedOnce(w: Tests, s: Store, id: nat)
    requires id < |s.evidence|
    ensures var s1 := Attached(w, s, id);
      && |s.claims| <= |s1.claims| <= |s.claims| + 1 && SameBut(s.evidence, s1.evidence)
      && (s.evidence[id].status == Rejected ==> |s1.claims| == |s.claims|)
      && (s1.evidence[id].status == Rejected || s1.evidence[id].supports.Some?)
      && (forall k :: 0 <= k < |s.evidence| && s.evidence[k].supports.Some? ==> s1.evidence[k].supports.Some?)
  {
    hide Match;
  }

  /** Attaching evidence that is with its claim already changes nothing. */
  lemma {:induction false} AttachedAgain(w: Tests, s: Store, ids: seq<nat>)
    requires Kept(w, s) && Ids(ids, |s.evidence|)
    requires forall k :: 0 <= k < |ids| ==> s.evidence[ids[k]].status == Rejected || s.evidence[ids[k]].supports.Some?
    ensures AttachedAll(w, s, ids) == Tally(s, 0, CountAccepted(s.evidence, ids))
  {
    if ids != [] {
      AttachedAgain(w, s, ids[..|ids| - 1]);
      var id := ids[|ids| - 1];
      if s.evidence[id].status != Rejected {
        JoinedAgain(s, id, s.evidence[id].supports.value);
      }
      hide Match;
      hide Joined;
    }
  }

  lemma WeighedAgain(s: Store)
    requires Backed(s)
    ensures var s1 := s.(claims := Weighed(s, |s.claims|));
      Backed(s1) && Weighed(s1, |s1.claims|) == s1.claims
  {
    hide Confidence;
  }

  /** Consolidating the same evidence once more is a no-op: nothing is created, every accepted piece
      is a duplicate, and the store stays as it is. */
  lemma ReplayIsIdempotent(w: Tests, s: Store, ids: seq<nat>)
    requires Kept(w, s) && Reflexive(w) && Ids(ids, |s.evidence|)
    ensures var s1 := Consolidated(w, s, ids).store;
      && Kept(w, s1) && Ids(ids, |s1.evidence|)
      && Consolidated(w, s1, ids) == Tally(s1, 0, CountAccepted(s1.evidence, ids))
  {
    var t := AttachedAll(w, s, ids);
    ConsolidateKeeps(w, s, ids);
    AttachAllKeeps(w, s, ids);
    TallyAddsUp(w, s, ids);
    WeighedAgain(t.store);
    var s1 := Consolidated(w, s, ids).store;
    AttachedAgain(w, s1, ids);
    hide AttachedAll;
    hide Weighed;
    hide CountAccepted;
  }

  // ------------------------------------------------------------------ confidence

  /** A claim backed by pieces that nothing contradicts, none below the given tier and confidence. */
  predicate Swarm(evidence: seq<Evidence>, ids: seq<nat>, tier: int, confidence: real) {
    && Ids(ids, |evidence|) && ids != []
    && (forall j, k :: 0 <= j < k < |ids| ==> ids[j] != ids[k])
    && forall k :: 0 <= k < |ids| ==> InSwarm(evidence[ids[k]], tier, confidence)
  }

  predicate InSwarm(e: Evidence, tier: int, confidence: real) {
    TierWeight(tier) <= TierWeight(e.chunk.tier) && confidence <= e.confidence && e.status != Contradicted
  }

  /** What the weight of a single piece grows to with n of them. */
  function Grown(weight: real, n: nat): real {
    weight * (1.0 + 0.12 * (n - 1) as real)
  }

  lemma GrowsWith(a: real, b: real, n: nat)
    requires 0.0 <= a <= b && 1 <= n
    ensures Grown(a, n) <= Grown(b, n)
  {
    var factor := 1.0 + 0.12 * (n - 1) as real;
    assert 0.0 <= (b - a) * factor;
  }

  lemma PieceWeighs(e: Evidence, tier: int, confidence: real)
    requires InSwarm(e, tier, confidence) && 0.0 <= confidence
    ensures TierWeight(tier) * confidence <= TierWeight(e.chunk.tier) * e.confidence
  {
    var t, u := TierWeight(tier), TierWeight(e.chunk.tier);
    assert t * confidence <= u * confidence;
    assert 0.0 <= u * (e.confidence - confidence);
  }

  lemma {:induction false} SwarmBest(evidence: seq<Evidence>, ids: seq<nat>, tier: int, confidence: real)
    requires Swarm(evidence, ids, tier, confidence) && 0.0 <= confidence
    ensures TierWeight(tier) * confidence <= Best(evidence, ids) && CountContradicted(evidence, ids) == 0
  {
    var last := evidence[ids[|ids| - 1]];
    assert InSwarm(last, tier, confidence);
    PieceWeighs(last, tier, confidence);
    hide TierWeight;
    if |ids| > 1 {
      SwarmBest(evidence, ids[..|ids| - 1], tier, confidence);
    } else {
      assert CountContradicted(evidence, ids[..0]) == 0;
    }
  }

  /** A piece of the given tier and confidence, and nothing more. */
  function Piece(tier: int, confidence: real): Evidence {
    Evidence("", "", Chunk("", tier), confidence, Extracted, None, None)
  }

  lemma {:induction false} EqualPieces(evidence: seq<Evidence>, ids: seq<nat>, tier: int, confidence: real)
    requires Ids(ids, |evidence|) && ids != [] && forall k :: 0 <= k < |ids| ==> evidence[ids[k]] == Piece(tier, confidence)
    ensures Best(evidence, ids) == TierWeight(tier) * confidence && CountContradicted(evidence, ids) == 0
  {
    hide TierWeight;
    if |ids| > 1 {
      EqualPieces(evidence, ids[..|ids| - 1], tier, confidence);
    } else {
      assert CountContradicted(evidence, ids[..0]) == 0;
    }
  }

  lemma ConfidenceMeans(evidence: seq<Evidence>, ids: seq<nat>)
    requires Ids(ids, |evidence|) && ids != [] && CountContradicted(evidence, ids) == 0
    ensures Confidence(evidence, ids) == 1.0 <==> 1.0 <= Grown(Best(evidence, ids), |ids|)
  {
    hide Best;
  }

  /** Consolidation does not cap what a swarm can reach: n uncontradicted pieces of at least a given tier
      and confidence always make a claim certain exactly when the weight of one, raised by 0.12 for each
      of the others, reaches 1. */
  lemma SwarmsAreCertainExactlyWhen(tier: int, confidence: real, n: nat)
    requires 0.0 <= confidence && 1 <= n
    ensures (forall evidence, ids | Swarm(evidence, ids, tier, confidence) && |ids| == n :: Confidence(evidence, ids) == 1.0)
      <==> 1.0 <= Grown(TierWeight(tier) * confidence, n)
  {
    hide TierWeight;
    hide Confidence;
    hide Best;
    if 1.0 <= Grown(TierWeight(tier) * confidence, n) {
      forall evidence, ids | Swarm(evidence, ids, tier, confidence) && |ids| == n ensures Confidence(evidence, ids) == 1.0 {
        SwarmBest(evidence, ids, tier, confidence);
        ConfidenceMeans(evidence, ids);
        TierCounts(tier);
        assert 0.0 <= TierWeight(tier) * confidence;
        GrowsWith(TierWeight(tier) * confidence, Best(evidence, ids), n);
      }
    } else {
      var evidence := seq(n, i requires 0 <= i < n => Piece(tier, confidence));
      var ids: seq<nat> := seq(n, i requires 0 <= i < n => i);
      EqualPieces(evidence, ids, tier, confidence);
      ConfidenceMeans(evidence, ids);
      assert Swarm(evidence, ids, tier, confidence) && |ids| == n && Confidence(evidence, ids) != 1.0;
    }
  }

  lemma TierCounts(tier: int)
    ensures 0.0 < TierWeight(tier)
  {
  }

  /** 26 certain pieces of the lowest tier, and no fewer, are always enough. */
  lemma SwarmIsCertainExactlyFrom26(n: nat)
    requires 1 <= n
    ensures (forall evidence, ids | Swarm(evidence, ids, 5, 1.0) && |ids| == n :: Confidence(evidence, ids) == 1.0) <==> 26 <= n
  {
    SwarmsAreCertainExactlyWhen(5, 1.0, n);
    assert Grown(TierWeight(5) * 1.0, n) == 0.25 + 0.03 * (n - 1) as real;
    hide Confidence;
    hide Grown;
  }

  /** The evidence's quote is one that was verified in its chunk. */
  ghost predicate FromVerifiedQuote(w: Tests, e: Evidence) {
    exists quote :: QuoteVerified(w, quote, e.chunk.text) && Strip(quote) == e.quote
  }

  /** A claim's backing is grounded, and backs no other claim. */
  ghost predicate Backs(w: Tests, s: Store, id: nat, c: nat) {
    && id < |s.evidence|
    && FromVerifiedQuote(w, s.evidence[id])
    && s.evidence[id].verdict.Some? && s.evidence[id].verdict.value !in {Contradicts, Unrelated}
    && s.evidence[id].supports == Some(c)
    && forall d :: 0 <= d < |s.claims| && id in s.claims[d].supportedBy ==> d == c
  }

  lemma KeptBacks(w: Tests, s: Store, c: nat, id: nat)
    requires Kept(w, s) && c < |s.claims| && id in s.claims[c].supportedBy
    ensures Backs(w, s, id, c)
  {
    hide Strip;
    hide QuoteVerified;
    hide Match;
    assert Ids(s.claims[c].supportedBy, |s.evidence|);
    assert s.evidence[id].supports == Some(c);
    assert Sound(w, s.evidence[id]);
    assert Grounded(w, s.evidence[id]);
  }

  /** Over all rounds: what a claim is supported by has a verified quote, was not found to be
      contradicted or unrelated, and supports no other claim. */
  lemma SupportIsGrounded(w: Tests, rounds: seq<seq<Proposal>>, c: nat, id: nat)
    requires Reflexive(w) && c < |After(w, rounds).claims| && id in After(w, rounds).claims[c].supportedBy
    ensures Backs(w, After(w, rounds), id, c)
  {
    hide Kept;
    KeptBacks(w, After(w, rounds), c, id);
  }

  /** Every piece of evidence that was not rejected is in a claim, and is backing for it. */
  predicate AllPlaced(s: Store) {
    forall id :: 0 <= id < |s.evidence| ==> Placed(s, id)
  }

  predicate Placed(s: Store, id: nat)
    requires id < |s.evidence|
  {
    var e := s.evidence[id];
    if e.status == Rejected then e.supports.None?
    else e.supports.Some? && e.supports.value < |s.claims| && id in s.claims[e.supports.value].supportedBy
  }

  /** Evidence that was there before a round is as it was. */
  lemma {:induction false} ExtendedBehind(w: Tests, s: Store, proposals: seq<Proposal>)
    ensures s.evidence <= Extended(w, s, proposals).evidence
  {
    hide Extraction;
    if proposals != [] {
      ExtendedBehind(w, s, proposals[..|proposals| - 1]);
    }
  }

  lemma KeptPlaced(w: Tests, s: Store, id: nat)
    requires Kept(w, s) && id < |s.evidence|
    requires s.evidence[id].status == Rejected || s.evidence[id].supports.Some?
    ensures Placed(s, id)
  {
    assert Sound(w, s.evidence[id]);
    hide Distinct;
    hide Grounded;
    hide QuoteVerified;
    hide Strip;
  }

  lemma RoundPlaces(w: Tests, s: Store, proposals: seq<Proposal>)
    requires Kept(w, s) && Reflexive(w) && AllPlaced(s)
    ensures AllPlaced(Round(w, s, proposals).store)
  {
    var s1, s2 := Extended(w, s, proposals), Round(w, s, proposals).store;
    var ids := Numbers(|s.evidence|, |s1.evidence|);
    ExtendedBehind(w, s, proposals);
    TallyAddsUp(w, s1, ids);
    RoundKeeps(w, s, proposals);
    hide AttachedAll;
    hide Kept;
    hide Extended;
    forall id | 0 <= id < |s2.evidence| ensures Placed(s2, id) {
      if id < |s.evidence| {
        assert Placed(s, id) && s1.evidence[id] == s.evidence[id];
      } else {
        assert ids[id - |s.evidence|] == id;
      }
      KeptPlaced(w, s2, id);
    }
  }

  /** Over all rounds: exactly the evidence that was not rejected supports a claim, and backs it. */
  lemma {:induction false} AcceptedIsPlaced(w: Tests, rounds: seq<seq<Proposal>>)
    requires Reflexive(w)
    ensures AllPlaced(After(w, rounds))
  {
    hide Round;
    hide Kept;
    if rounds != [] {
      AcceptedIsPlaced(w, rounds[..|rounds| - 1]);
      RoundPlaces(w, After(w, rounds[..|rounds| - 1]), rounds[|rounds| - 1]);
    }
  }

  // ------------------------------------------------------------------ the worker

  lemma NumbersOn(from: nat, to: nat)
    requires from <= to
    ensures Numbers(from, to + 1) == Numbers(from, to) + [to]
  {
  }

  function CountRejected(es: seq<Evidence>): nat {
    if es == [] then 0 else CountRejected(es[..|es| - 1]) + (if es[|es| - 1].status == Rejected then 1 else 0)
  }

  class EvidenceWorker {
    const tests: Tests
    var evidence: seq<Evidence>
    var claims: seq<Claim>

    ghost function Now(): Store
      reads this
    {
      Store(evidence, claims)
    }

    constructor (tests: Tests)
      ensures this.tests == tests && Now() == EMPTY
    {
      this.tests := tests;
      evidence, claims := [], [];
    }

    method Examine(chunk: Chunk, item: Item) returns (e: Evidence)
      ensures e == Examined(tests, chunk, item)
    {
      hide Strip;
      hide Quotes.Judged;
      hide Quotes.Norm;
      var judged := Quotes.VerifyQuote(item.quote, chunk.text, tests.ratio);
      var status, verdict := Rejected, None;
      if judged == Quotes.Exact || judged == Quotes.Fuzzy {
        verdict := Some(tests.support(item.claim, item.quote));
        status := StatusFor(Extracted, verdict.value);
      }
      e := Evidence(Strip(item.claim), Strip(item.quote), chunk, Clamp(item.confidence), status, verdict, None);
    }

    /** Stores what the model proposed for a chunk, accepted or not. */
    method ExtractChunk(chunk: Chunk, items: seq<Item>) returns (created: seq<nat>, rejected: nat)
      modifies this`evidence
      ensures evidence == old(evidence) + Extraction(tests, chunk, items)
      ensures created == Numbers(|old(evidence)|, |evidence|)
      ensures rejected == CountRejected(Extraction(tests, chunk, items))
    {
      hide Strip;
      hide Examined;
      created, rejected := [], 0;
      for k := 0 to |items|
        invariant evidence == old(evidence) + Extraction(tests, chunk, items[..k])
        invariant created == Numbers(|old(evidence)|, |evidence|)
        invariant rejected == CountRejected(Extraction(tests, chunk, items[..k]))
      {
        assert items[..k + 1][..k] == items[..k];
        var e := Examine(chunk, items[k]);
        if Strip(items[k].claim) != "" {
          if e.status == Rejected {
            rejected := rejected + 1;
          }
          NumbersOn(|old(evidence)|, |evidence|);
          created := created + [|evidence|];
          evidence := evidence + [e];
          ghost var before := Extraction(tests, chunk, items[..k]);
          assert (before + [e])[..|before|] == before;
        }
      }
      assert items[..|items|] == items;
    }

    method FindClaim(text: string) returns (c: Option<nat>)
      ensures c == Match(tests, claims, text, 0)
    {
      var i := 0;
      while i < |claims|
        invariant i <= |claims| && Match(tests, claims, text, i) == Match(tests, claims, text, 0)
      {
        if tests.same(claims[i].text, text) {
          return Some(i);
        }
        i := i + 1;
      }
      return None;
    }

    method Attach(id: nat) returns (isNew: bool)
      requires id < |evidence| && evidence[id].status != Rejected
      modifies this
      ensures |evidence| == |old(evidence)| && Now() == Attached(tests, old(Now()), id)
      ensures isNew <==> |claims| > |old(claims)|
    {
      var ev := evidence[id];
      var found := FindClaim(ev.claim);
      hide Match;
      var c := |claims|;
      if found.Some? {
        c := found.value;
      } else {
        claims := claims + [Claim(ev.claim, [], 0.0)];
      }
      if id !in claims[c].supportedBy {
        claims := claims[c := claims[c].(supportedBy := claims[c].supportedBy + [id])];
      }
      evidence := evidence[id := ev.(supports := Some(c))];
      return found.None?;
    }

    /** Attaches new evidence to claims, and weighs all claims again. */
    method ConsolidateClaims(ids: seq<nat>) returns (created: nat, duplicates: nat)
      requires Backed(Now()) && Ids(ids, |evidence|)
      modifies this
      ensures Tally(Now(), created, duplicates) == Consolidated(tests, old(Now()), ids)
    {
      hide Attached;
      hide Confidence;
      created, duplicates := 0, 0;
      for k := 0 to |ids|
        invariant Ids(ids[..k], |old(evidence)|) && |evidence| == |old(evidence)|
        invariant Tally(Now(), created, duplicates) == AttachedAll(tests, old(Now()), ids[..k])
      {
        assert ids[..k + 1][..k] == ids[..k];
        if evidence[ids[k]].status != Rejected {
          var isNew := Attach(ids[k]);
          if isNew {
            created := created + 1;
          } else {
            duplicates := duplicates + 1;
          }
        }
      }
      assert ids[..|ids|] == ids;
      StaysBacked(tests, old(Now()), ids);
      ghost var attached := Now();
      for c := 0 to |claims|
        invariant evidence == attached.evidence && |claims| == |attached.claims|
        invariant forall d :: 0 <= d < c ==> claims[d] == attached.claims[d].(confidence := Confidence(evidence, attached.claims[d].supportedBy))
        invariant forall d :: c <= d < |claims| ==> claims[d] == attached.claims[d]
      {
        claims := claims[c := claims[c].(confidence := Confidence(evidence, claims[c].supportedBy))];
      }
      assert claims == Weighed(attached, |attached.claims|);
    }
  }
}
