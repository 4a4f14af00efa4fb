/** The gallery's built-in sample data: four users and fifteen prototypes,
    with the lookups the pages run over them. Dates are kept as milliseconds
    since the Unix epoch, midnight UTC of the day written in the data. */
module GalleryData {
  import opened Results
  import opened Text
  import opened Seqs

  datatype User = User(id: string, name: string, email: string, role: Option<string>)

  /** A sample prototype as the gallery cards show it. */
  datatype Prototype = Prototype(
    id: string,
    title: string,
    author: User,
    description: string,
    tags: seq<string>,
    productArea: string,
    lastUpdated: int,
    url: string)

  const MockUsers: seq<User> := [
    User("user-1", "Sarah Chen", "sarah.chen@microsoft.com", Some("Senior Product Manager")),
    User("user-2", "Marcus Johnson", "marcus.johnson@microsoft.com", Some("UX Designer")),
    User("user-3", "Elena Rodriguez", "elena.rodriguez@microsoft.com", Some("Program Manager")),
    User("user-4", "David Kim", "david.kim@microsoft.com", Some("Principal Designer"))
  ]

  const MockPrototypes: seq<Prototype> := [
    Prototype("azure-cost-dashboard", "Azure Cost Management Dashboard", MockUsers[0],
      "Interactive dashboard for enterprise Azure cost tracking with predictive analytics and budget alerts. Features real-time cost visualization and recommendation engine.",
      ["azure", "dashboard", "enterprise", "cost-management"], "Azure", 1757894400000 /* 2025-09-15 */, "https://prototype.microsoft.com/azure-cost-dashboard"),
    Prototype("teams-ai-meeting-assistant", "Teams AI Meeting Assistant", MockUsers[1],
      "AI-powered meeting companion that provides real-time transcription, action item extraction, and follow-up suggestions integrated directly into Teams.",
      ["teams", "ai", "meetings", "productivity"], "Microsoft 365", 1757635200000 /* 2025-09-12 */, "https://prototype.microsoft.com/teams-ai-assistant"),
    Prototype("powerbi-mobile-designer", "Power BI Mobile Report Designer", MockUsers[2],
      "Touch-first report creation experience for Power BI on tablets. Drag-and-drop interface optimized for mobile productivity scenarios.",
      ["powerbi", "mobile", "design", "reports"], "Power Platform", 1757462400000 /* 2025-09-10 */, "https://prototype.microsoft.com/powerbi-mobile"),
    Prototype("vscode-copilot-workspace", "VS Code Copilot Workspace", MockUsers[3],
      "Enhanced VS Code experience with AI workspace understanding. Copilot can now comprehend entire project context for better code suggestions.",
      ["vscode", "copilot", "ai", "development"], "Developer Tools", 1757289600000 /* 2025-09-08 */, "https://prototype.microsoft.com/vscode-workspace"),
    Prototype("dynamics-customer-insights", "Dynamics Customer 360 View", MockUsers[0],
      "Unified customer profile aggregating data from multiple Dynamics applications with predictive customer lifetime value scoring.",
      ["dynamics", "customer", "insights", "crm"], "Dynamics 365", 1757030400000 /* 2025-09-05 */, "https://prototype.microsoft.com/dynamics-customer360"),
    Prototype("sharepoint-knowledge-graph", "SharePoint Knowledge Graph Explorer", MockUsers[1],
      "Interactive knowledge discovery tool that maps content relationships across SharePoint sites using AI-powered content analysis.",
      ["sharepoint", "knowledge", "ai", "content"], "Microsoft 365", 1756857600000 /* 2025-09-03 */, "https://prototype.microsoft.com/sharepoint-knowledge"),
    Prototype("xbox-cloud-streaming", "Xbox Cloud Gaming Dashboard", MockUsers[2],
      "Administrative dashboard for Xbox Cloud Gaming service management. Monitor server performance, user sessions, and game deployment status.",
      ["xbox", "cloud", "gaming", "admin"], "Gaming", 1756684800000 /* 2025-09-01 */, "https://prototype.microsoft.com/xbox-cloud-admin"),
    Prototype("edge-enterprise-policies", "Edge Enterprise Policy Manager", MockUsers[3],
      "Simplified interface for IT administrators to configure and deploy Microsoft Edge policies across enterprise environments.",
      ["edge", "enterprise", "policies", "admin"], "Edge", 1756339200000 /* 2025-08-28 */, "https://prototype.microsoft.com/edge-policies"),
    Prototype("fabric-data-lineage", "Microsoft Fabric Data Lineage Viewer", MockUsers[0],
      "Visual data lineage tracking across Microsoft Fabric workspaces. Interactive graph showing data flow from sources to reports.",
      ["fabric", "data", "lineage", "analytics"], "Microsoft Fabric", 1756080000000 /* 2025-08-25 */, "https://prototype.microsoft.com/fabric-lineage"),
    Prototype("copilot-studio-templates", "Copilot Studio Template Gallery", MockUsers[1],
      "Curated collection of Copilot Studio templates for common business scenarios with one-click deployment and customization.",
      ["copilot", "studio", "templates", "automation"], "Power Platform", 1755820800000 /* 2025-08-22 */, "https://prototype.microsoft.com/copilot-templates"),
    Prototype("intune-device-insights", "Intune Device Health Insights", MockUsers[2],
      "Predictive device health monitoring for Intune-managed devices. Early warning system for hardware failures and security vulnerabilities.",
      ["intune", "device", "health", "security"], "Security", 1755648000000 /* 2025-08-20 */, "https://prototype.microsoft.com/intune-insights"),
    Prototype("outlook-smart-scheduling", "Outlook Smart Scheduling Assistant", MockUsers[3],
      "AI-powered meeting scheduling that considers attendee preferences, time zones, and workload to suggest optimal meeting times.",
      ["outlook", "scheduling", "ai", "meetings"], "Microsoft 365", 1755475200000 /* 2025-08-18 */, "https://prototype.microsoft.com/outlook-scheduling"),
    Prototype("azure-security-dashboard", "Azure Security Center Unified Dashboard", MockUsers[0],
      "Consolidated security posture view across all Azure resources with threat intelligence integration and automated response recommendations.",
      ["azure", "security", "dashboard", "threats"], "Security", 1755216000000 /* 2025-08-15 */, "https://prototype.microsoft.com/azure-security"),
    Prototype("onenote-research-assistant", "OneNote Research Assistant", MockUsers[1],
      "AI research companion for OneNote that suggests relevant sources, creates citations, and helps organize research notes automatically.",
      ["onenote", "research", "ai", "productivity"], "Microsoft 365", 1754956800000 /* 2025-08-12 */, "https://prototype.microsoft.com/onenote-research"),
    Prototype("loop-project-canvas", "Microsoft Loop Project Canvas", MockUsers[2],
      "Visual project planning workspace in Loop that connects tasks, timelines, and team members in an interactive canvas format.",
      ["loop", "project", "canvas", "collaboration"], "Microsoft 365", 1754784000000 /* 2025-08-10 */, "https://prototype.microsoft.com/loop-canvas")
  ]

  // ---------------------------------------------------------------------------
  // Matching

  /** `field.toLowerCase().includes(query.toLowerCase())`. */
  predicate FieldMatches(field: string, query: string) {
    Includes(ToLower(field), ToLower(query))
  }

  /** The fields the search hook and the mock API look at: title, description,
      author name and product area. */
  predicate MatchesCard(p: Prototype, query: string) {
    FieldMatches(p.title, query) || FieldMatches(p.description, query)
    || FieldMatches(p.author.name, query) || FieldMatches(p.productArea, query)
  }

  /** The fields the data module's own search looks at: title, description,
      author name and every tag. */
  predicate MatchesWithTags(p: Prototype, query: string) {
    FieldMatches(p.title, query) || FieldMatches(p.description, query)
    || FieldMatches(p.author.name, query) || (exists t :: t in p.tags && FieldMatches(t, query))
  }

  /** Case does not matter to a match. */
  lemma MatchIgnoresCase(field: string, query: string)
    ensures FieldMatches(field, ToLower(query)) == FieldMatches(field, query)
  {
    ToLowerIdempotent(query);
  }

  /** The empty query is found in every field. */
  lemma EmptyQueryMatches(p: Prototype)
    ensures MatchesCard(p, "") && MatchesWithTags(p, "")
  {
    assert ToLower("") == "";
    IncludesEmpty(ToLower(p.title));
  }

  // ---------------------------------------------------------------------------
  // Lookups, over any list and over the sample list

  /** The prototypes written by `userId`, in list order. */
  function ByAuthor(list: seq<Prototype>, userId: string): (r: seq<Prototype>)
    ensures IsSubsequence(r, list)
    ensures forall p :: p in r <==> p in list && p.author.id == userId
    ensures forall p :: multiset(r)[p] == if p.author.id == userId then multiset(list)[p] else 0
  {
    var keep := (p: Prototype) => p.author.id == userId;
    FilterIsSubsequence(list, keep);
    FilterMembers(list, keep);
    FilterCounts(list, keep);
    Filter(list, keep)
  }

  /** The prototypes of one product area, in list order. */
  function ByProductArea(list: seq<Prototype>, productArea: string): (r: seq<Prototype>)
    ensures IsSubsequence(r, list)
    ensures forall p :: p in r <==> p in list && p.productArea == productArea
    ensures forall p :: multiset(r)[p] == if p.productArea == productArea then multiset(list)[p] else 0
  {
    var keep := (p: Prototype) => p.productArea == productArea;
    FilterIsSubsequence(list, keep);
    FilterMembers(list, keep);
    FilterCounts(list, keep);
    Filter(list, keep)
  }

  /** The prototypes whose title, description, author name or some tag holds
      the query, ignoring case, in list order. */
  function SearchWithTags(list: seq<Prototype>, query: string): (r: seq<Prototype>)
    ensures IsSubsequence(r, list)
    ensures forall p :: p in r <==> p in list && MatchesWithTags(p, query)
    ensures forall p :: multiset(r)[p] == if MatchesWithTags(p, query) then multiset(list)[p] else 0
  {
    var keep := (p: Prototype) => MatchesWithTags(p, query);
    FilterIsSubsequence(list, keep);
    FilterMembers(list, keep);
    FilterCounts(list, keep);
    Filter(list, keep)
  }

  /** The prototypes whose title, description, author name or product area
      holds the query, ignoring case, in list order; tags are not looked at. */
  function SearchCards(list: seq<Prototype>, query: string): (r: seq<Prototype>)
    ensures IsSubsequence(r, list)
    ensures forall p :: p in r <==> p in list && MatchesCard(p, query)
    ensures forall p :: multiset(r)[p] == if MatchesCard(p, query) then multiset(list)[p] else 0
  {
    var keep := (p: Prototype) => MatchesCard(p, query);
    FilterIsSubsequence(list, keep);
    FilterMembers(list, keep);
    FilterCounts(list, keep);
    Filter(list, keep)
  }

  /** A prototype found only through a tag is found by the tag-aware search
      and missed by the other. */
  lemma TagOnlyMatch(list: seq<Prototype>, p: Prototype, query: string)
    requires p in list && !MatchesCard(p, query)
    requires exists t :: t in p.tags && FieldMatches(t, query)
    ensures p in SearchWithTags(list, query) && p !in SearchCards(list, query)
  {
  }

  /** The empty query keeps every prototype. */
  lemma SearchEverything(list: seq<Prototype>)
    ensures SearchWithTags(list, "") == list
  {
    forall p | p in list ensures MatchesWithTags(p, "") {
      EmptyQueryMatches(p);
    }
    FilterKeepsAll(list, (p: Prototype) => MatchesWithTags(p, ""));
  }

  /** A query and its lower-case form find the same prototypes. */
  lemma SearchIgnoresCase(list: seq<Prototype>, query: string)
    ensures SearchWithTags(list, ToLower(query)) == SearchWithTags(list, query)
  {
    ToLowerIdempotent(query);
    var lowered := (p: Prototype) => MatchesWithTags(p, ToLower(query));
    var plain := (p: Prototype) => MatchesWithTags(p, query);
    FilterAgree(list, lowered, plain);
  }

  /** `getUserPrototypes`. */
  function GetUserPrototypes(userId: string): seq<Prototype> {
    ByAuthor(MockPrototypes, userId)
  }

  /** `getPrototypesByProductArea`. */
  function GetPrototypesByProductArea(productArea: string): seq<Prototype> {
    ByProductArea(MockPrototypes, productArea)
  }

  /** `searchPrototypes`. */
  function SearchPrototypes(query: string): seq<Prototype> {
    SearchWithTags(MockPrototypes, query)
  }
}
