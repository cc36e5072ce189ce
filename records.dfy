/** The records kept in the project memory, one datatype per kind of entry.
    Timestamps are the ISO strings the store is handed; they are opaque here. */
module Records {

  datatype Option<+T> = None | Some(value: T)

  /** `project_info` */
  datatype ProjectInfo = ProjectInfo(
    name: string,
    projectType: string,
    description: string,
    detectedTechnologies: seq<string>,
    version: string,
    created: string,
    lastUpdated: string,
    projectRoot: string)

  /** One value of `implementation_status.components`. `progress` is None for
      Python's `None` (the argument left out). */
  datatype ComponentStatus = ComponentStatus(
    status: string,
    details: string,
    progress: Option<int>,
    lastUpdated: string)

  /** One entry of `architecture.decisions`. Its tags come from a `set`, so
      they carry no order. */
  datatype Decision = Decision(
    id: int,
    timestamp: string,
    decision: string,
    rationale: string,
    impact: string,
    alternatives: seq<string>,
    status: string,
    tags: set<string>)

  /** One entry of a solution's `previous_versions`. */
  datatype PreviousVersion = PreviousVersion(solution: string, timestamp: string)

  /** A solution's `tags`: the caller's list, or keywords extracted into a set. */
  datatype SolutionTags = Given(list: seq<string>) | Extracted(keywords: set<string>)

  /** One value of `working_solutions`. An empty `previousVersions` stands for
      the key being absent. */
  datatype Solution = Solution(
    problem: string,
    solution: string,
    command: string,
    timestamp: string,
    verified: bool,
    tags: SolutionTags,
    usageCount: int,
    previousVersions: seq<PreviousVersion>)

  /** One entry of `conversation_history`. */
  datatype Conversation = Conversation(
    id: int,
    timestamp: string,
    summary: string,
    decisionsMade: seq<string>,
    solutionsFound: seq<string>,
    sessionId: string)

  /** One entry of `priority_history`. */
  datatype PriorityChange = PriorityChange(
    timestamp: string,
    oldPriorities: seq<string>,
    newPriorities: seq<string>)

  /** `metadata` */
  datatype Metadata = Metadata(
    totalConversations: int,
    totalDecisions: int,
    totalSolutions: int,
    lastActive: string)

  /** What a search hit points at (`content`). */
  datatype Content =
    | DecisionItem(decision: Decision)
    | SolutionItem(solution: Solution)
    | ConversationItem(conversation: Conversation)
    | ComponentItem(component: string, componentStatus: ComponentStatus)

  /** One search hit: `type`, `content`, `relevance_score`, `summary`. */
  datatype SearchResult = SearchResult(kind: string, content: Content, score: real, summary: string)
}
