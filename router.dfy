/** The accept-or-fallback rule of `MasterAgent.get_agent` (Minor-Project-2/app.py:94-114):
    the completion service's reply names the agent that handles a query, and anything
    other than one of the four agent names selects the coach. */
module Router {
  import opened Wrappers
  import opened PyStr

  datatype AgentKind = Coach | Tutor | LearningTracking | Roadmap

  /** The class name by which the reply names each agent. */
  function Name(kind: AgentKind): string {
    match kind
    case Coach => "CoachAgent"
    case Tutor => "TutorAgent"
    case LearningTracking => "LearningTrackingAgent"
    case Roadmap => "RoadmapAgent"
  }

  /** The names that are accepted, in the order the membership test lists them. */
  const AgentNames: seq<string> := ["CoachAgent", "TutorAgent", "LearningTrackingAgent", "RoadmapAgent"]

  /** What the completion service gave back: its text, or an exception. */
  datatype Reply = Failed | Replied(text: string)

  /** The agent whose name is exactly `name`, if there is one. */
  function KindNamed(name: string): (k: Option<AgentKind>)
    ensures k.Some? <==> name in AgentNames
    ensures k.Some? ==> Name(k.value) == name
  {
    if name == "CoachAgent" then Some(Coach)
    else if name == "TutorAgent" then Some(Tutor)
    else if name == "LearningTrackingAgent" then Some(LearningTracking)
    else if name == "RoadmapAgent" then Some(Roadmap)
    else None
  }

  /** `get_agent`: the agent named by the stripped reply, or the coach when the reply is
      not exactly one of the four names or the service failed. */
  function GetAgent(reply: Reply): (kind: AgentKind)
    ensures Name(kind) in AgentNames
    ensures reply.Failed? ==> kind == Coach
    ensures reply.Replied? ==> (Name(kind) == Strip(reply.text) <==> Strip(reply.text) in AgentNames)
    ensures reply.Replied? && Strip(reply.text) !in AgentNames ==> kind == Coach
  {
    match reply
    case Failed => Coach
    case Replied(text) =>
      match KindNamed(Strip(text))
      case Some(k) => k
      case None => Coach
  }

  /** Each agent has its own name, and the name reads back as that agent. */
  lemma NameRoundTrip(kind: AgentKind)
    ensures KindNamed(Name(kind)) == Some(kind)
    ensures forall other: AgentKind | Name(other) == Name(kind) :: other == kind
  {
  }

  /** Every agent is reachable: a reply that is its name, with any whitespace before and
      after it (a trailing newline, say), selects it. */
  lemma EveryAgentSelectable(kind: AgentKind, lead: string, trail: string)
    requires forall k | 0 <= k < |lead| :: IsSpace(lead[k])
    requires forall k | 0 <= k < |trail| :: IsSpace(trail[k])
    ensures GetAgent(Replied(lead + Name(kind) + trail)) == kind
  {
    var name := Name(kind);
    assert name[0] in "CTLR" && name[|name| - 1] == 't';
    StripPadded(lead, name, trail);
    NameRoundTrip(kind);
  }
}
