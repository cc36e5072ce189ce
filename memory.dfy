/** `ProjectMemoryManager`: the single-writer, in-memory project knowledge
    store. Each section of the memory dictionary is a field; every mutator
    changes the sections its `modifies` clause names and nothing else, then
    runs the save step, which only stamps `project_info.last_updated` and
    `metadata.last_active` (writing files is not modelled). Timestamps are
    parameters: `now` is the operation's own `datetime.now()`, `savedAt`
    the one taken by the save step. */
module Memory {
  import opened Slices
  import opened Records
  import opened OrderedMaps
  import opened SolutionKeys
  import opened Progress
  import opened Relevance
  import opened Ranking
  import opened Search
  import opened Detection

  const InitialVersion := "1.0.0"
  const RecentDecisionCount := 5
  const RecentConversationCount := 3

  /** `statistics` of the context projection. */
  datatype Statistics = Statistics(
    totalComponents: nat,
    totalDecisions: nat,
    totalSolutions: nat,
    totalConversations: nat)

  /** What `get_current_context` returns. */
  datatype Context = Context(
    projectName: string,
    projectType: string,
    projectDescription: string,
    projectRoot: string,
    overallProgress: string,
    components: OrderedMap<ComponentStatus>,
    priorities: seq<string>,
    technologies: seq<string>,
    recentDecisions: seq<Decision>,
    solutions: OrderedMap<Solution>,
    knownIssues: map<string, string>,
    recentConversations: seq<Conversation>,
    lastUpdated: string,
    statistics: Statistics)

  /** `f"session_{timestamp.replace(':', '').replace('-', '')}"` */
  function SessionId(timestamp: string): (id: string)
    ensures |id| >= 8 && id[..8] == "session_"
    ensures forall i :: 8 <= i < |id| ==> id[i] != ':' && id[i] != '-'
  {
    "session_" + WithoutSeparators(timestamp)
  }

  /** `s.replace(':', '').replace('-', '')`: drops the separators and keeps
      every other character, in order. */
  function WithoutSeparators(s: string): (r: string)
    ensures |r| <= |s|
    ensures forall i :: 0 <= i < |r| ==> r[i] != ':' && r[i] != '-'
    ensures (forall i :: 0 <= i < |s| ==> s[i] != ':' && s[i] != '-') ==> r == s
  {
    if s == [] then []
    else (if s[0] == ':' || s[0] == '-' then [] else [s[0]]) + WithoutSeparators(s[1..])
  }

  /** Removing separators works piece by piece. */
  lemma {:induction false} WithoutSeparatorsConcat(a: string, b: string)
    ensures WithoutSeparators(a + b) == WithoutSeparators(a) + WithoutSeparators(b)
  {
    if a != [] {
      var head := if a[0] == ':' || a[0] == '-' then [] else [a[0]];
      assert (a + b)[0] == a[0] && (a + b)[1..] == a[1..] + b;
      WithoutSeparatorsConcat(a[1..], b);
      assert WithoutSeparators(a + b) == head + (WithoutSeparators(a[1..]) + WithoutSeparators(b));
      assert WithoutSeparators(a) == head + WithoutSeparators(a[1..]);
    } else {
      assert a + b == b;
    }
  }

  /** A separator is dropped wherever it stands. */
  lemma SeparatorDropped(a: string, c: char, b: string)
    requires c == ':' || c == '-'
    ensures WithoutSeparators(a + [c] + b) == WithoutSeparators(a) + WithoutSeparators(b)
  {
    WithoutSeparatorsConcat(a + [c], b);
    WithoutSeparatorsConcat(a, [c]);
  }

  /** The record `add_working_solution` stores under its key, given what was
      stored there before, if anything. */
  function SolutionRecord(problem: string, solution: string, command: string, tags: seq<string>,
                          now: string, existing: Option<Solution>): (r: Solution)
    ensures r.problem == problem && r.solution == solution && r.command == command
    ensures r.timestamp == now && r.verified
    ensures existing.None? ==> r.usageCount == 1 && r.previousVersions == []
    ensures existing.Some? ==>
      r.usageCount == existing.value.usageCount + 1
      && r.previousVersions == existing.value.previousVersions
                               + [PreviousVersion(existing.value.solution, existing.value.timestamp)]
    ensures tags != [] ==> r.tags == Given(tags)
    ensures tags == [] ==> r.tags == Extracted(ExtractTags(problem + " " + solution))
  {
    var tagged := if tags != [] then Given(tags) else Extracted(ExtractTags(problem + " " + solution));
    match existing
    case None => Solution(problem, solution, command, now, true, tagged, 1, [])
    case Some(prev) =>
      Solution(problem, solution, command, now, true, tagged, prev.usageCount + 1,
               prev.previousVersions + [PreviousVersion(prev.solution, prev.timestamp)])
  }

  /** `dict.get(key)` */
  function Lookup<V>(m: OrderedMap<V>, key: string): (r: Option<V>)
    ensures r.Some? <==> key in m.entries
    ensures r.Some? ==> r.value == m.entries[key]
  {
    if key in m.entries then Some(m.entries[key]) else None
  }

  /** The `working_solutions` dictionary after `add_working_solution`. */
  function FiledSolutions(sols: OrderedMap<Solution>, problem: string, solution: string, command: string,
                          tags: seq<string>, now: string): (r: OrderedMap<Solution>)
    requires sols.Valid()
    ensures r.Valid()
  {
    var key := GenerateSolutionKey(problem);
    sols.Put(key, SolutionRecord(problem, solution, command, tags, now, Lookup(sols, key)))
  }

  /** Filing a solution replaces the entry under the problem's key by the new
      record (which counts the earlier one's uses and keeps its version), in
      place when the key was already there and appended otherwise; the
      dictionary grows by one exactly when the key is new. */
  lemma FiledSolutionsMeaning(sols: OrderedMap<Solution>, problem: string, solution: string, command: string,
                              tags: seq<string>, now: string)
    requires sols.Valid()
    ensures var r := FiledSolutions(sols, problem, solution, command, tags, now);
      var key := GenerateSolutionKey(problem);
      && r.entries == sols.entries[key := SolutionRecord(problem, solution, command, tags, now, Lookup(sols, key))]
      && (key in sols.entries ==> r.keys == sols.keys)
      && (key !in sols.entries ==> r.keys == sols.keys + [key])
      && |r.entries| == |sols.entries| + (if key in sols.entries then 0 else 1)
  {
    var key := GenerateSolutionKey(problem);
    PutSize(sols, key, SolutionRecord(problem, solution, command, tags, now, Lookup(sols, key)));
  }

  /** The first loop of `search_memory`: score every decision. */
  method ScanDecisions(qws: seq<string>, decisions: seq<Decision>) returns (results: seq<SearchResult>)
    ensures results == DecisionHits(qws, decisions)
  {
    results := [];
    for i := 0 to |decisions|
      invariant results == DecisionHits(qws, decisions[..i])
    {
      assert decisions[..i + 1][..i] == decisions[..i];
      var d := decisions[i];
      var score := CalculateRelevanceScore(qws, [d.decision, d.rationale, d.impact]);
      if score > 0.0 {
        results := results + [SearchResult(DecisionKind, DecisionItem(d), score, Summary(d.decision))];
      }
    }
    assert decisions[..|decisions|] == decisions;
  }

  /** The second loop of `search_memory`: score every working solution, in
      key order. */
  method ScanSolutions(qws: seq<string>, solutions: OrderedMap<Solution>) returns (results: seq<SearchResult>)
    requires solutions.Valid()
    ensures results == SolutionHits(qws, solutions.keys, solutions.entries)
  {
    results := [];
    for i := 0 to |solutions.keys|
      invariant results == SolutionHits(qws, solutions.keys[..i], solutions.entries)
    {
      SolutionHitsStep(qws, solutions.keys, solutions.entries, i);
      var s := solutions.entries[solutions.keys[i]];
      var score := CalculateRelevanceScore(qws, [s.problem, s.solution, s.command]);
      if score > 0.0 {
        results := results + [SearchResult(SolutionKind, SolutionItem(s), score, Summary(s.problem))];
      }
    }
    assert solutions.keys[..|solutions.keys|] == solutions.keys;
  }

  /** The third loop of `search_memory`: score every logged conversation. */
  method ScanConversations(qws: seq<string>, history: seq<Conversation>) returns (results: seq<SearchResult>)
    ensures results == ConversationHits(qws, history)
  {
    results := [];
    for i := 0 to |history|
      invariant results == ConversationHits(qws, history[..i])
    {
      assert history[..i + 1][..i] == history[..i];
      var c := history[i];
      var score := CalculateRelevanceScore(qws, [c.summary]);
      if score > 0.0 {
        results := results + [SearchResult(ConversationKind, ConversationItem(c), score, Summary(c.summary))];
      }
    }
    assert history[..|history|] == history;
  }

  /** The fourth loop of `search_memory`: score every component by its name,
      details and status. */
  method ScanComponents(qws: seq<string>, components: OrderedMap<ComponentStatus>)
    returns (results: seq<SearchResult>)
    requires components.Valid()
    ensures results == ComponentHits(qws, components.keys, components.entries)
  {
    results := [];
    for i := 0 to |components.keys|
      invariant results == ComponentHits(qws, components.keys[..i], components.entries)
    {
      assert components.keys[..i + 1][..i] == components.keys[..i];
      var name := components.keys[i];
      var st := components.entries[name];
      var score := CalculateRelevanceScore(qws, [name, st.details, st.status]);
      if score > 0.0 {
        results := results + [SearchResult(ComponentKind, ComponentItem(name, st), score, name + ": " + st.status)];
      }
    }
    assert components.keys[..|components.keys|] == components.keys;
  }

  class ProjectMemoryManager {
    /** `str(self.project_root)` */
    const projectRoot: string
    /** The `max_conversation_history` setting of the configuration. */
    const maxHistory: int

    /** `project_info` */
    var info: ProjectInfo
    /** `implementation_status.overall_progress` */
    var overallProgress: string
    /** `implementation_status.components` */
    var components: OrderedMap<ComponentStatus>
    /** `implementation_status.last_assessment` */
    var lastAssessment: string
    /** `architecture.decisions` */
    var decisions: seq<Decision>
    /** `architecture.technologies` */
    var technologies: seq<string>
    /** `current_priorities` */
    var priorities: seq<string>
    /** `priority_history`; empty while the key is absent */
    var priorityHistory: seq<PriorityChange>
    /** `working_solutions` */
    var solutions: OrderedMap<Solution>
    /** `known_issues` */
    var knownIssues: map<string, string>
    /** `conversation_history` */
    var history: seq<Conversation>
    /** `metadata` */
    var metadata: Metadata

    /** Both dictionaries list each of their keys exactly once. */
    ghost predicate Valid()
      reads this
    {
      components.Valid() && solutions.Valid()
    }

    /** The memory `_load_memory` builds when there is no memory file, from
        what `_detect_project_info` found in the project root. The source
        reads the clock four times: for `created`, `last_updated`,
        `last_assessment` and `last_active`. */
    constructor Fresh(root: string, detected: Detected, maxHistory: int,
                      created: string, updated: string, assessed: string, active: string)
      ensures Valid()
      ensures this.projectRoot == root && this.maxHistory == maxHistory
      ensures info == ProjectInfo(detected.name, detected.projectType, detected.description, detected.technologies,
                                  InitialVersion, created, updated, root)
      ensures overallProgress == "in_progress" && components == Empty() && lastAssessment == assessed
      ensures decisions == [] && technologies == detected.technologies
      ensures priorities == [] && priorityHistory == [] && solutions == Empty()
      ensures knownIssues == map[] && history == []
      ensures metadata == Metadata(0, 0, 0, active)
    {
      this.projectRoot := root;
      this.maxHistory := maxHistory;
      info := ProjectInfo(detected.name, detected.projectType, detected.description, detected.technologies,
                          InitialVersion, created, updated, root);
      overallProgress := "in_progress";
      components := Empty();
      lastAssessment := assessed;
      decisions := [];
      technologies := detected.technologies;
      priorities := [];
      priorityHistory := [];
      solutions := Empty();
      knownIssues := map[];
      history := [];
      metadata := Metadata(0, 0, 0, active);
    }

    /** The part of `_save_memory` that changes the memory. */
    method Touch(savedAt: string)
      modifies this`info, this`metadata
      ensures info == old(info).(lastUpdated := savedAt)
      ensures metadata == old(metadata).(lastActive := savedAt)
    {
      info := info.(lastUpdated := savedAt);
      metadata := metadata.(lastActive := savedAt);
    }

    /** `get_current_context` */
    function CurrentContext(): (c: Context)
      reads this
      ensures |c.recentDecisions| == Min(RecentDecisionCount, |decisions|)
      ensures c.recentDecisions == decisions[|decisions| - |c.recentDecisions|..]
      ensures |c.recentConversations| == Min(RecentConversationCount, |history|)
      ensures c.recentConversations == history[|history| - |c.recentConversations|..]
      ensures c.statistics.totalComponents == |components.entries|
      ensures c.statistics.totalDecisions == |decisions|
      ensures c.statistics.totalSolutions == |solutions.entries|
      ensures c.statistics.totalConversations == |history|
      ensures c.components == components && c.solutions == solutions
      ensures c.priorities == priorities && c.technologies == technologies && c.knownIssues == knownIssues
      ensures c.projectRoot == projectRoot && c.lastUpdated == info.lastUpdated
      ensures c.projectName == info.name && c.projectType == info.projectType
      ensures c.projectDescription == info.description && c.overallProgress == overallProgress
    {
      Context(
        info.name, info.projectType, info.description, projectRoot, overallProgress,
        components, priorities, technologies,
        if decisions != [] then PyTail(decisions, RecentDecisionCount) else [],
        solutions, knownIssues,
        if history != [] then PyTail(history, RecentConversationCount) else [],
        info.lastUpdated,
        Statistics(|components.entries|, |decisions|, |solutions.entries|, |history|))
    }

    /** `update_implementation_status` */
    method UpdateImplementationStatus(component: string, status: string, details: string,
                                      progress: Option<int>, now: string, savedAt: string)
      requires Valid()
      modifies this`components, this`overallProgress, this`lastAssessment, this`info, this`metadata
      ensures Valid()
      ensures components == old(components).Put(component, ComponentStatus(status, details, progress, now))
      ensures overallProgress ==
        ProgressLabel(CountComplete(components.keys, components.entries), |components.entries|)
      ensures lastAssessment == now
      ensures info == old(info).(lastUpdated := savedAt)
      ensures metadata == old(metadata).(lastActive := savedAt)
    {
      components := components.Put(component, ComponentStatus(status, details, progress, now));
      if components.entries != map[] {
        var completed := CountComplete(components.keys, components.entries);
        var total := |components.entries|;
        overallProgress := ProgressLabel(completed, total);
      }
      lastAssessment := now;
      Touch(savedAt);
    }

    /** `add_architecture_decision` */
    method AddArchitectureDecision(decision: string, rationale: string, impact: string,
                                   alternatives: seq<string>, now: string, savedAt: string)
      modifies this`decisions, this`info, this`metadata
      ensures |decisions| == |old(decisions)| + 1
      ensures decisions[..|old(decisions)|] == old(decisions)
      ensures decisions[|decisions| - 1] ==
        Decision(|old(decisions)| + 1, now, decision, rationale, impact, alternatives, "active",
                 ExtractTags(decision + " " + rationale))
      ensures info == old(info).(lastUpdated := savedAt)
      ensures metadata == old(metadata).(totalDecisions := |decisions|, lastActive := savedAt)
    {
      var rec := Decision(|decisions| + 1, now, decision, rationale, impact, alternatives, "active",
                          ExtractTags(decision + " " + rationale));
      decisions := decisions + [rec];
      metadata := metadata.(totalDecisions := |decisions|);
      Touch(savedAt);
    }

    /** `add_working_solution` */
    method AddWorkingSolution(problem: string, solution: string, command: string, tags: seq<string>,
                              now: string, savedAt: string)
      requires Valid()
      modifies this`solutions, this`info, this`metadata
      ensures Valid()
      ensures solutions == FiledSolutions(old(solutions), problem, solution, command, tags, now)
      ensures info == old(info).(lastUpdated := savedAt)
      ensures metadata == old(metadata).(totalSolutions := |solutions.entries|, lastActive := savedAt)
    {
      solutions := FiledSolutions(solutions, problem, solution, command, tags, now);
      metadata := metadata.(totalSolutions := |solutions.entries|);
      Touch(savedAt);
    }

    /** `update_priorities` */
    method UpdatePriorities(newPriorities: seq<string>, now: string, savedAt: string)
      modifies this`priorities, this`priorityHistory, this`info, this`metadata
      ensures priorities == newPriorities
      ensures old(priorities) != [] ==>
        priorityHistory == old(priorityHistory) + [PriorityChange(now, old(priorities), newPriorities)]
      ensures old(priorities) == [] ==> priorityHistory == old(priorityHistory)
      ensures info == old(info).(lastUpdated := savedAt)
      ensures metadata == old(metadata).(lastActive := savedAt)
    {
      if priorities != [] {
        priorityHistory := priorityHistory + [PriorityChange(now, priorities, newPriorities)];
      }
      priorities := newPriorities;
      Touch(savedAt);
    }

    /** `log_conversation_context` */
    method LogConversationContext(summary: string, decisionsMade: seq<string>, solutionsFound: seq<string>,
                                  now: string, savedAt: string)
      modifies this`history, this`info, this`metadata
      ensures var rec := Conversation(|old(history)| + 1, now, summary, decisionsMade, solutionsFound,
                                      SessionId(now));
        && |history| <= |old(history)| + 1
        && history == (old(history) + [rec])[|old(history)| + 1 - |history|..]
        && (maxHistory >= 1 ==> |history| == Min(|old(history)| + 1, maxHistory))
        && (maxHistory == 0 ==> history == old(history) + [rec])
        && (maxHistory < 0 ==> |history| == Max(|old(history)| + 1 + maxHistory, 0))
        && (maxHistory >= 0 ==> |history| > 0 && history[|history| - 1] == rec)
      ensures info == old(info).(lastUpdated := savedAt)
      ensures metadata == old(metadata).(totalConversations := |old(history)| + 1, lastActive := savedAt)
    {
      var rec := Conversation(|history| + 1, now, summary, decisionsMade, solutionsFound, SessionId(now));
      history := history + [rec];
      metadata := metadata.(totalConversations := |history|);
      if |history| > maxHistory {
        history := PyTail(history, maxHistory);
      }
      Touch(savedAt);
    }

    /** `search_memory` */
    method SearchMemory(query: string, limit: int) returns (found: seq<SearchResult>)
      requires Valid()
      ensures found == SearchOutcome(ScanHits(QueryWords(query), decisions, solutions, history, components), limit)
      ensures limit >= 0 ==> |found| <= limit
      ensures forall r :: r in found ==> r.score > 0.0
      ensures SortedDesc(found)
    {
      var qws := QueryWords(query);
      var fromDecisions := ScanDecisions(qws, decisions);
      var fromSolutions := ScanSolutions(qws, solutions);
      var fromConversations := ScanConversations(qws, history);
      var fromComponents := ScanComponents(qws, components);
      var results := fromDecisions + fromSolutions + fromConversations + fromComponents;
      results := SortDesc(results);
      found := PyTake(results, limit);
    }
  }

  /** The no-memory-file path of `_load_memory`: detect the project in the
      root (whose file names are `present`) and start an empty memory. */
  method LoadFresh(root: string, present: set<string>, maxHistory: int,
                   created: string, updated: string, assessed: string, active: string)
    returns (m: ProjectMemoryManager)
    ensures fresh(m) && m.Valid() && m.projectRoot == root && m.maxHistory == maxHistory
    ensures var d := DetectedFor(root, present);
      m.info == ProjectInfo(d.name, d.projectType, d.description, d.technologies, InitialVersion, created, updated, root)
    ensures m.technologies == DetectedFor(root, present).technologies
    ensures m.overallProgress == "in_progress" && m.lastAssessment == assessed
    ensures m.components == Empty() && m.solutions == Empty() && m.knownIssues == map[]
    ensures m.decisions == [] && m.priorities == [] && m.priorityHistory == [] && m.history == []
    ensures m.metadata == Metadata(0, 0, 0, active)
  {
    var detected := DetectProjectInfo(root, present);
    m := new ProjectMemoryManager.Fresh(root, detected, maxHistory, created, updated, assessed, active);
  }

  /** Once the history is at its cap, the record id `len + 1` no longer grows:
      two conversations logged back to back both get id `max_history + 1`. */
  method LogTwiceAtCapacity(m: ProjectMemoryManager, first: string, second: string,
                            now1: string, now2: string, saved1: string, saved2: string)
    returns (firstId: int, secondId: int)
    requires m.maxHistory >= 1 && |m.history| == m.maxHistory
    modifies m`history, m`info, m`metadata
    ensures firstId == secondId == m.maxHistory + 1
    ensures |m.history| == m.maxHistory
    ensures m.metadata.totalConversations == m.maxHistory + 1
  {
    m.LogConversationContext(first, [], [], now1, saved1);
    firstId := m.history[|m.history| - 1].id;
    m.LogConversationContext(second, [], [], now2, saved2);
    secondId := m.history[|m.history| - 1].id;
  }
}
