/** What `search_memory` collects before sorting: one hit per record whose
    relevance score is positive, scanning decisions, then solutions, then
    conversations, then components, each in its own order. */
module Search {
  import opened Text
  import opened Slices
  import opened Records
  import opened OrderedMaps
  import opened Relevance
  import opened Ranking

  const DecisionKind := "architecture_decision"
  const SolutionKind := "working_solution"
  const ConversationKind := "conversation"
  const ComponentKind := "implementation_status"

  /** `re.findall(r'\w+', query.lower())` */
  function QueryWords(query: string): (qws: seq<string>)
    ensures forall qw :: qw in qws ==> IsWord(qw)
  {
    Words(Lower(query))
  }

  /** `text[:100] + "..."` */
  function Summary(text: string): (s: string)
    ensures |s| == Min(|text|, 100) + 3
    ensures s[..|s| - 3] == text[..|s| - 3] && s[|s| - 3..] == "..."
  {
    PyTake(text, 100) + "..."
  }

  function DecisionHit(qws: seq<string>, d: Decision): (r: SearchResult) {
    SearchResult(DecisionKind, DecisionItem(d), RelevanceScore(qws, [d.decision, d.rationale, d.impact]),
                 Summary(d.decision))
  }

  function SolutionHit(qws: seq<string>, s: Solution): (r: SearchResult) {
    SearchResult(SolutionKind, SolutionItem(s), RelevanceScore(qws, [s.problem, s.solution, s.command]),
                 Summary(s.problem))
  }

  function ConversationHit(qws: seq<string>, c: Conversation): (r: SearchResult) {
    SearchResult(ConversationKind, ConversationItem(c), RelevanceScore(qws, [c.summary]), Summary(c.summary))
  }

  function ComponentHit(qws: seq<string>, name: string, st: ComponentStatus): (r: SearchResult) {
    SearchResult(ComponentKind, ComponentItem(name, st), RelevanceScore(qws, [name, st.details, st.status]),
                 name + ": " + st.status)
  }

  /** `[r] if r.score > 0 else []` */
  function IfPositive(r: SearchResult): (rs: seq<SearchResult>) {
    if r.score > 0.0 then [r] else []
  }

  function DecisionHits(qws: seq<string>, ds: seq<Decision>): (rs: seq<SearchResult>)
    ensures forall r :: r in rs ==> r.score > 0.0 && r.kind == DecisionKind
  {
    if ds == [] then []
    else DecisionHits(qws, ds[..|ds| - 1]) + IfPositive(DecisionHit(qws, ds[|ds| - 1]))
  }

  function SolutionHits(qws: seq<string>, keys: seq<string>, entries: map<string, Solution>): (rs: seq<SearchResult>)
    requires forall k :: k in keys ==> k in entries
    ensures forall r :: r in rs ==> r.score > 0.0 && r.kind == SolutionKind
  {
    if keys == [] then []
    else SolutionHits(qws, keys[..|keys| - 1], entries) + IfPositive(SolutionHit(qws, entries[keys[|keys| - 1]]))
  }

  /** Scoring one more solution key appends its hit, if it has one. */
  lemma SolutionHitsStep(qws: seq<string>, keys: seq<string>, entries: map<string, Solution>, i: nat)
    requires i < |keys| && forall k :: k in keys ==> k in entries
    ensures SolutionHits(qws, keys[..i + 1], entries)
            == SolutionHits(qws, keys[..i], entries) + IfPositive(SolutionHit(qws, entries[keys[i]]))
  {
    assert keys[..i + 1][..i] == keys[..i];
  }

  function ConversationHits(qws: seq<string>, cs: seq<Conversation>): (rs: seq<SearchResult>)
    ensures forall r :: r in rs ==> r.score > 0.0 && r.kind == ConversationKind
  {
    if cs == [] then []
    else ConversationHits(qws, cs[..|cs| - 1]) + IfPositive(ConversationHit(qws, cs[|cs| - 1]))
  }

  function ComponentHits(qws: seq<string>, keys: seq<string>, entries: map<string, ComponentStatus>)
    : (rs: seq<SearchResult>)
    requires forall k :: k in keys ==> k in entries
    ensures forall r :: r in rs ==> r.score > 0.0 && r.kind == ComponentKind
  {
    if keys == [] then []
    else
      var k := keys[|keys| - 1];
      ComponentHits(qws, keys[..|keys| - 1], entries) + IfPositive(ComponentHit(qws, k, entries[k]))
  }

  /** All hits in scan order: decisions, solutions, conversations, components. */
  function ScanHits(qws: seq<string>, decisions: seq<Decision>, solutions: OrderedMap<Solution>,
                    history: seq<Conversation>, components: OrderedMap<ComponentStatus>): (hits: seq<SearchResult>)
    requires solutions.Valid() && components.Valid()
    ensures forall r :: r in hits ==> r.score > 0.0
  {
    DecisionHits(qws, decisions) + SolutionHits(qws, solutions.keys, solutions.entries)
    + ConversationHits(qws, history) + ComponentHits(qws, components.keys, components.entries)
  }

  /** Every decision that scores above zero is among the decision hits. */
  lemma {:induction false} DecisionHitsComplete(qws: seq<string>, ds: seq<Decision>, d: Decision)
    requires d in ds && DecisionHit(qws, d).score > 0.0
    ensures DecisionHit(qws, d) in DecisionHits(qws, ds)
  {
    if d != ds[|ds| - 1] {
      DecisionHitsComplete(qws, ds[..|ds| - 1], d);
    }
  }

  /** Every conversation that scores above zero is among the conversation hits. */
  lemma {:induction false} ConversationHitsComplete(qws: seq<string>, cs: seq<Conversation>, c: Conversation)
    requires c in cs && ConversationHit(qws, c).score > 0.0
    ensures ConversationHit(qws, c) in ConversationHits(qws, cs)
  {
    if c != cs[|cs| - 1] {
      ConversationHitsComplete(qws, cs[..|cs| - 1], c);
    }
  }

  /** Every stored solution that scores above zero is among the solution hits. */
  lemma {:induction false} SolutionHitsComplete(qws: seq<string>, keys: seq<string>,
                                                entries: map<string, Solution>, k: string)
    requires forall key :: key in keys ==> key in entries
    requires k in keys && SolutionHit(qws, entries[k]).score > 0.0
    ensures SolutionHit(qws, entries[k]) in SolutionHits(qws, keys, entries)
  {
    if k != keys[|keys| - 1] {
      SolutionHitsComplete(qws, keys[..|keys| - 1], entries, k);
    }
  }

  /** Every component that scores above zero is among the component hits. */
  lemma {:induction false} ComponentHitsComplete(qws: seq<string>, keys: seq<string>,
                                                 entries: map<string, ComponentStatus>, k: string)
    requires forall key :: key in keys ==> key in entries
    requires k in keys && ComponentHit(qws, k, entries[k]).score > 0.0
    ensures ComponentHit(qws, k, entries[k]) in ComponentHits(qws, keys, entries)
  {
    if k != keys[|keys| - 1] {
      ComponentHitsComplete(qws, keys[..|keys| - 1], entries, k);
    }
  }

  /** Hit kinds appear in non-decreasing scan rank. */
  predicate InScanOrder(hits: seq<SearchResult>) {
    forall i, j :: 0 <= i < j < |hits| ==> Rank(hits[i].kind) <= Rank(hits[j].kind)
  }

  lemma Uniform(hits: seq<SearchResult>, kind: string)
    requires forall r :: r in hits ==> r.kind == kind
    ensures InScanOrder(hits)
  {
    assert forall i :: 0 <= i < |hits| ==> hits[i] in hits;
  }

  lemma Joined(a: seq<SearchResult>, b: seq<SearchResult>, kind: string)
    requires InScanOrder(a)
    requires forall r :: r in a ==> Rank(r.kind) <= Rank(kind)
    requires forall r :: r in b ==> r.kind == kind
    ensures InScanOrder(a + b)
  {
    var ab := a + b;
    forall i, j | 0 <= i < j < |ab| ensures Rank(ab[i].kind) <= Rank(ab[j].kind) {
      if j < |a| {
        assert ab[i] == a[i] && ab[j] == a[j];
      } else if i < |a| {
        assert ab[i] in a && ab[j] in b;
      } else {
        assert ab[i] in b && ab[j] in b;
      }
    }
  }

  /** Scan order: every decision hit comes before every solution hit, every
      solution hit before every conversation hit, and every conversation hit
      before every component hit. With the stable sort this is the tie order. */
  lemma ScanOrder(qws: seq<string>, decisions: seq<Decision>, solutions: OrderedMap<Solution>,
                  history: seq<Conversation>, components: OrderedMap<ComponentStatus>)
    requires solutions.Valid() && components.Valid()
    ensures InScanOrder(ScanHits(qws, decisions, solutions, history, components))
  {
    var a := DecisionHits(qws, decisions);
    var b := SolutionHits(qws, solutions.keys, solutions.entries);
    var c := ConversationHits(qws, history);
    var d := ComponentHits(qws, components.keys, components.entries);
    Uniform(a, DecisionKind);
    Joined(a, b, SolutionKind);
    assert forall r :: r in a + b ==> r in a || r in b;
    Joined(a + b, c, ConversationKind);
    assert forall r :: r in a + b + c ==> r in a + b || r in c;
    Joined(a + b + c, d, ComponentKind);
  }

  /** Position of a hit kind in the scan. */
  function Rank(kind: string): (rank: nat) {
    if kind == DecisionKind then 0
    else if kind == SolutionKind then 1
    else if kind == ConversationKind then 2
    else 3
  }

  /** What `search_memory` returns: the hits sorted by descending score, ties
      in scan order, cut to `limit` with Python's slice rule. */
  function SearchOutcome(hits: seq<SearchResult>, limit: int): (found: seq<SearchResult>)
    ensures limit >= 0 ==> |found| <= limit
    ensures limit >= 0 ==> |found| == Min(limit, |hits|)
    ensures SortedDesc(found)
    ensures multiset(found) <= multiset(hits)
    ensures |found| <= |hits| && found == SortDesc(hits)[..|found|]
    ensures forall r :: r in found ==> r in hits
  {
    var sorted := SortDesc(hits);
    var found := PyTake(sorted, limit);
    PrefixOfSorted(sorted, |found|);
    assert forall r :: r in found ==> r in multiset(found);
    found
  }

  lemma PrefixOfSorted(s: seq<SearchResult>, k: nat)
    requires k <= |s| && SortedDesc(s)
    ensures SortedDesc(s[..k])
    ensures multiset(s[..k]) <= multiset(s)
  {
    assert s == s[..k] + s[k..];
    assert multiset(s) == multiset(s[..k]) + multiset(s[k..]);
  }
}
