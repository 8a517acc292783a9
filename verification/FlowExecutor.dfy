/**
 The flow executor: a walk over a stored graph that executes a node, picks the next edge by the node's
 branch, and gives up after 100 nodes.
 */
module FlowExecutor {
  import opened Wrappers
  import opened Text
  import Template

  const MAX_NODES: nat := 100

  // ---- documents ----

  datatype Op = Equals | Contains | StartsWith | Regex | UnknownOp

  datatype Kind =
    | Trigger
    | End
    | SendMessage(text: string)
    | Condition(lhs: string, op: Op, rhs: string)
    | Delay(ms: int)
    | AddTag(tag: string)
    | RemoveTag(tag: string)
    | Assign(member: Option<string>)
    | UpdateContact(name: Option<string>, email: Option<string>, language: Option<string>, stage: Option<string>)
    | CreateDeal(pipelineId: string, title: string)
    | Webhook(url: string)
    | AiRespond
    | MoveDealStage
    | Unknown

  datatype Node = Node(id: string, kind: Kind)
  datatype Edge = Edge(source: string, target: string, branch: Option<bool>)
  datatype Doc = Doc(nodes: seq<Node>, edges: seq<Edge>)

  /** The node map keeps the last node of each id. */
  function FindIn(nodes: seq<Node>, id: string): (r: Option<Node>)
    ensures r.Some? <==> id in Ids(nodes)
    ensures r.Some? ==> r.value in nodes && r.value.id == id
  {
    if nodes == [] then None
    else if nodes[|nodes| - 1].id == id then Some(nodes[|nodes| - 1])
    else FindIn(nodes[..|nodes| - 1], id)
  }

  /** Node i is the last one with the id. */
  ghost predicate LastOf(nodes: seq<Node>, id: string, i: nat) {
    i < |nodes| && nodes[i].id == id && forall j :: i < j < |nodes| ==> nodes[j].id != id
  }

  lemma {:induction false} FindsLast(nodes: seq<Node>, id: string)
    ensures FindIn(nodes, id).Some? ==> exists i: nat :: LastOf(nodes, id, i) && FindIn(nodes, id) == Some(nodes[i])
  {
    if nodes != [] {
      var n := |nodes| - 1;
      if nodes[n].id == id {
        assert LastOf(nodes, id, n);
      } else if FindIn(nodes, id).Some? {
        FindsLast(nodes[..n], id);
        var i: nat :| LastOf(nodes[..n], id, i) && FindIn(nodes[..n], id) == Some(nodes[..n][i]);
        assert LastOf(nodes, id, i);
      }
    }
  }

  function Ids(nodes: seq<Node>): set<string> { set n | n in nodes :: n.id }

  /** The first edge out of `source` that carries the branch, if any. */
  function Branched(edges: seq<Edge>, source: string, branch: bool): Option<string> {
    if edges == [] then None
    else if edges[0].source == source && edges[0].branch == Some(branch) then Some(edges[0].target)
    else Branched(edges[1..], source, branch)
  }

  function First(edges: seq<Edge>, source: string): Option<string> {
    if edges == [] then None
    else if edges[0].source == source then Some(edges[0].target)
    else First(edges[1..], source)
  }

  /** A branch without an edge of its own falls back to the first edge. */
  function NextNodeId(edges: seq<Edge>, source: string, branch: Option<bool>): Option<string> {
    if branch.Some? && Branched(edges, source, branch.value).Some? then Branched(edges, source, branch.value)
    else First(edges, source)
  }

  /** Edge i is the first out of `source`, or the first that carries the branch when one is asked for. */
  ghost predicate FirstEdge(edges: seq<Edge>, source: string, branch: Option<bool>, i: nat) {
    && i < |edges| && Leads(edges[i], source, branch)
    && forall j :: 0 <= j < i ==> !Leads(edges[j], source, branch)
  }

  predicate Leads(e: Edge, source: string, branch: Option<bool>) { e.source == source && (branch.Some? ==> e.branch == branch) }

  lemma {:induction false} BranchedIs(edges: seq<Edge>, source: string, branch: bool)
    ensures Branched(edges, source, branch).None? ==> forall i :: 0 <= i < |edges| ==> !Leads(edges[i], source, Some(branch))
    ensures Branched(edges, source, branch).Some? ==>
      exists i: nat :: FirstEdge(edges, source, Some(branch), i) && Branched(edges, source, branch) == Some(edges[i].target)
  {
    if edges != [] {
      BranchedIs(edges[1..], source, branch);
      if Leads(edges[0], source, Some(branch)) {
        assert FirstEdge(edges, source, Some(branch), 0);
      } else if Branched(edges, source, branch).Some? {
        var i: nat :| FirstEdge(edges[1..], source, Some(branch), i) && Branched(edges[1..], source, branch) == Some(edges[1..][i].target);
        assert FirstEdge(edges, source, Some(branch), i + 1);
      }
    }
  }

  lemma {:induction false} FirstIs(edges: seq<Edge>, source: string)
    ensures First(edges, source).None? ==> forall i :: 0 <= i < |edges| ==> !Leads(edges[i], source, None)
    ensures First(edges, source).Some? ==>
      exists i: nat :: FirstEdge(edges, source, None, i) && First(edges, source) == Some(edges[i].target)
  {
    if edges != [] {
      FirstIs(edges[1..], source);
      if Leads(edges[0], source, None) {
        assert FirstEdge(edges, source, None, 0);
      } else if First(edges, source).Some? {
        var i: nat :| FirstEdge(edges[1..], source, None, i) && First(edges[1..], source) == Some(edges[1..][i].target);
        assert FirstEdge(edges, source, None, i + 1);
      }
    }
  }

  /** Where the walk may go from `source`: along the first edge of the branch, along the first edge at all when the
      branch has none of its own, and nowhere exactly when there is no edge. */
  ghost predicate GoesTo(edges: seq<Edge>, source: string, branch: Option<bool>, next: Option<string>) {
    && (next.None? <==> forall i :: 0 <= i < |edges| ==> edges[i].source != source)
    && ((exists i :: 0 <= i < |edges| && Leads(edges[i], source, branch)) ==>
          exists i: nat :: FirstEdge(edges, source, branch, i) && next == Some(edges[i].target))
    && (next.Some? && (forall i :: 0 <= i < |edges| ==> !Leads(edges[i], source, branch)) ==>
          exists i: nat :: FirstEdge(edges, source, None, i) && next == Some(edges[i].target))
  }

  lemma NextNodeIdIs(edges: seq<Edge>, source: string, branch: Option<bool>)
    ensures GoesTo(edges, source, branch, NextNodeId(edges, source, branch))
    ensures forall next :: GoesTo(edges, source, branch, next) ==> next == NextNodeId(edges, source, branch)
  {
    hide Branched, First;
    FirstIs(edges, source);
    if branch.Some? { BranchedIs(edges, source, branch.value); }
    assert GoesTo(edges, source, branch, NextNodeId(edges, source, branch));
    forall next | GoesTo(edges, source, branch, next) ensures next == NextNodeId(edges, source, branch) {
      OneWay(edges, source, branch, next, NextNodeId(edges, source, branch));
    }
  }

  lemma OneWay(edges: seq<Edge>, source: string, branch: Option<bool>, a: Option<string>, b: Option<string>)
    requires GoesTo(edges, source, branch, a) && GoesTo(edges, source, branch, b)
    ensures a == b
  {
    hide Leads;
    if a.Some? {
      if exists i :: 0 <= i < |edges| && Leads(edges[i], source, branch) {
        var i: nat :| FirstEdge(edges, source, branch, i) && a == Some(edges[i].target);
        var j: nat :| FirstEdge(edges, source, branch, j) && b == Some(edges[j].target);
        assert i == j;
      } else {
        var i: nat :| FirstEdge(edges, source, None, i) && a == Some(edges[i].target);
        var j: nat :| FirstEdge(edges, source, None, j) && b == Some(edges[j].target);
        assert i == j;
      }
    }
  }

  // ---- executing a node ----

  datatype Context = Context(clientId: string, contactId: string, conversationId: Option<string>, message: Option<string>)

  datatype ContactRow = ContactRow(tags: seq<string>, name: Option<string>, email: Option<string>,
                                   language: Option<string>, stage: Option<string>)

  datatype Pipeline = Pipeline(clientId: string, firstStage: Option<string>)

  datatype ConversationStatus = OPEN | ASSIGNED | RESOLVED | SNOOZED

  datatype Deal = Deal(id: string, pipelineId: string, stageId: string, title: string)

  /** The rows a flow touches: its contact and conversation with its member and status, when they exist, and what it creates. */
  datatype World = World(
    contact: Option<ContactRow>,
    conversationExists: bool,
    assignedTo: Option<string>,
    status: ConversationStatus,
    messages: seq<string>,
    jobs: seq<nat>,
    pipelines: map<string, Pipeline>,
    deals: seq<Deal>,
    posts: seq<string>)

  /** What the runtime supplies: case folding, regular expressions with their guard, the address filter, row ids,
      the texts of the properties that every object inherits, such as toString, and which adds to the queue fail:
      each message is added once, so its number tells the add. */
  datatype Host = Host(
    lower: string -> string,
    regex: (string, string) -> bool,
    blocked: string -> bool,
    dealId: nat -> string,
    inherited: map<string, string>,
    addFails: nat -> bool)

  type Vars = map<string, string>

  datatype Outcome =
    | Threw(world: World)
    | Went(branch: Option<bool>, vars: Vars, world: World)

  function IsInfix(a: string, b: string): bool { exists i :: 0 <= i <= |b| && a <= b[i..] }

  function Holds(host: Host, lhs: string, op: Op, rhs: string): bool {
    match op
    case Equals => lhs == rhs
    case Contains => IsInfix(host.lower(rhs), host.lower(lhs))
    case StartsWith => host.lower(rhs) <= host.lower(lhs)
    case Regex => host.regex(rhs, lhs)
    case UnknownOp => false
  }

  function Without(tags: seq<string>, tag: string): seq<string> {
    if tags == [] then []
    else Without(tags[..|tags| - 1], tag) + (if tags[|tags| - 1] != tag then [tags[|tags| - 1]] else [])
  }

  /** Variables are looked up in a plain object, so a name that is not set may find an inherited property. */
  function Rendered(host: Host, s: string, ctx: Context, vars: Vars): string {
    Template.FlowTemplate(s, ctx.message, ctx.contactId, host.inherited + vars)
  }

  function Exec(host: Host, node: Node, ctx: Context, vars: Vars, w: World): Outcome {
    match node.kind
    case SendMessage(text) =>
      if ctx.conversationId.None? then Went(None, vars, w)
      else if !w.conversationExists then Threw(w)
      else
        var created := w.(messages := w.messages + [Rendered(host, text, ctx, vars)]);
        if host.addFails(|w.messages|) then Threw(created)
        else Went(None, vars, created.(jobs := created.jobs + [|w.messages|]))
    case Condition(lhs, op, rhs) =>
      Went(Some(Holds(host, Rendered(host, lhs, ctx, vars), op, rhs)), vars, w)
    case AddTag(tag) =>
      if tag == "" || w.contact.None? || tag in w.contact.value.tags then Went(None, vars, w)
      else Went(None, vars, w.(contact := Some(w.contact.value.(tags := w.contact.value.tags + [tag]))))
    case RemoveTag(tag) =>
      if w.contact.None? then Went(None, vars, w)
      else Went(None, vars, w.(contact := Some(w.contact.value.(tags := Without(w.contact.value.tags, tag)))))
    case Assign(member) =>
      if ctx.conversationId.None? then Went(None, vars, w)
      else if !w.conversationExists then Threw(w)
      else Went(None, vars, w.(assignedTo := member,
                               status := if member.Some? && member.value != "" then ASSIGNED else OPEN))
    case UpdateContact(name, email, language, stage) =>
      if w.contact.None? then Threw(w)
      else
        var c := w.contact.value;
        Went(None, vars, w.(contact := Some(c.(
          name := if name.Some? then name else c.name,
          email := if email.Some? then email else c.email,
          language := if language.Some? then language else c.language,
          stage := if stage.Some? then stage else c.stage))))
    case CreateDeal(pipelineId, title) =>
      if pipelineId == "" || pipelineId !in w.pipelines || w.pipelines[pipelineId].clientId != ctx.clientId
         || w.pipelines[pipelineId].firstStage.None? then Went(None, vars, w)
      else if w.contact.None? then Threw(w)
      else
        var id := host.dealId(|w.deals|);
        var deal := Deal(id, pipelineId, w.pipelines[pipelineId].firstStage.value, Rendered(host, title, ctx, vars));
        Went(None, vars["lastDealId" := id], w.(deals := w.deals + [deal]))
    case Webhook(url) =>
      if url == "" || host.blocked(url) then Went(None, vars, w) else Went(None, vars, w.(posts := w.posts + [url]))
    case Unknown => Threw(w)
    case _ => Went(None, vars, w)
  }

  // ---- the walk ----

  /** How a run ended; a run cut off by the cap was about to look at node `next`. */
  datatype Ending = Stopped | Failed | Capped(next: string)

  datatype Trace = Trace(visited: seq<string>, ending: Ending, world: World)

  /** The walk from `current` with room for `fuel` more nodes. */
  function Walk(host: Host, doc: Doc, current: Option<string>, ctx: Context, vars: Vars, w: World, fuel: nat): Trace
    decreases fuel
  {
    if current.None? || current.value == "" then Trace([], Stopped, w)
    else if fuel == 0 then Trace([], Capped(current.value), w)
    else
      var found := FindIn(doc.nodes, current.value);
      if found.None? then Trace([], Stopped, w)
      else
        match Exec(host, found.value, ctx, vars, w)
        case Threw(w') => Trace([current.value], Failed, w')
        case Went(branch, vars', w') =>
          var rest := Walk(host, doc, NextNodeId(doc.edges, current.value, branch), ctx, vars', w', fuel - 1);
          Trace([current.value] + rest.visited, rest.ending, rest.world)
  }

  lemma WalkNext(host: Host, doc: Doc, current: Option<string>, ctx: Context, vars: Vars, w: World, fuel: nat)
    requires current.Some? && current.value != "" && fuel > 0
    ensures var found := FindIn(doc.nodes, current.value);
      var result := Exec(host, if found.Some? then found.value else Node(current.value, End), ctx, vars, w);
      var walk := Walk(host, doc, current, ctx, vars, w, fuel);
      if found.None? then walk == Trace([], Stopped, w)
      else if result.Threw? then walk == Trace([current.value], Failed, result.world)
      else
        var rest := Walk(host, doc, NextNodeId(doc.edges, current.value, result.branch), ctx, result.vars, result.world, fuel - 1);
        walk == Trace([current.value] + rest.visited, rest.ending, rest.world)
  {
    hide Exec, NextNodeId;
  }

  lemma WalkDone(host: Host, doc: Doc, current: Option<string>, ctx: Context, vars: Vars, w: World, fuel: nat)
    requires current.None? || current.value == "" || fuel == 0
    ensures Walk(host, doc, current, ctx, vars, w, fuel)
      == Trace([], if current.None? || current.value == "" then Stopped else Capped(current.value), w)
  {
  }

  class Executor {
    const host: Host
    var world: World

    constructor (host: Host, world: World)
      ensures this.host == host && this.world == world
    {
      this.host := host;
      this.world := world;
    }

    /** Walks from the start node, executing nodes and following edges, for at most MAX_NODES nodes. */
    method Run(doc: Doc, start: string, ctx: Context) returns (visited: seq<string>, ending: Ending)
      modifies this
      ensures Trace(visited, ending, world) == Walk(host, doc, Some(start), ctx, map[], old(world), MAX_NODES)
      ensures |visited| <= 100 && (ending.Capped? ==> |visited| == 100)
    {
      hide Exec, NextNodeId, FindIn, Walk;
      var currentId := Some(start);
      var vars: Vars := map[];
      var steps := 0;
      visited := [];
      ending := Stopped;
      ghost var all := Walk(host, doc, Some(start), ctx, map[], world, MAX_NODES);
      assert [] + all.visited == all.visited;
      while currentId.Some? && currentId.value != "" && steps < MAX_NODES
        invariant 0 <= steps <= MAX_NODES && |visited| == steps
        invariant var rest := Walk(host, doc, currentId, ctx, vars, world, MAX_NODES - steps);
          all == Trace(visited + rest.visited, rest.ending, rest.world)
        decreases MAX_NODES - steps
      {
        WalkNext(host, doc, currentId, ctx, vars, world, MAX_NODES - steps);
        var id := currentId.value;
        var node := FindIn(doc.nodes, id);
        if node.None? {
          assert visited + [] == visited;
          return visited, Stopped;
        }
        var result := Exec(host, node.value, ctx, vars, world);
        ghost var rest := Walk(host, doc, currentId, ctx, vars, world, MAX_NODES - steps);
        if result.Threw? {
          world := result.world;
          return visited + [id], Failed;
        }
        assert visited + rest.visited == visited + [id] + rest.visited[1..];
        visited := visited + [id];
        world := result.world;
        vars := result.vars;
        currentId := NextNodeId(doc.edges, id, result.branch);
        steps := steps + 1;
      }
      WalkDone(host, doc, currentId, ctx, vars, world, MAX_NODES - steps);
      assert visited + [] == visited;
      if currentId.Some? && currentId.value != "" { ending := Capped(currentId.value); }
    }
  }

  // ---- what a node does ----

  /** The walk at a condition, with l its rendered left side: it goes on along the "true" edge exactly when l is the
      right side (equals), holds it anywhere (contains) or begins with it (starts_with), the last two up to case, or
      matches it; along the "false" edge otherwise, so always for an operator it does not know. */
  lemma ConditionLeads(host: Host, doc: Doc, id: string, ctx: Context, vars: Vars, w: World, fuel: nat)
    requires id != "" && fuel > 0 && FindIn(doc.nodes, id).Some? && FindIn(doc.nodes, id).value.kind.Condition?
    ensures var Condition(lhs, op, r) := FindIn(doc.nodes, id).value.kind;
      var l := Rendered(host, lhs, ctx, vars);
      var yes := if op.Equals? then l == r
                 else if op.Contains? then exists a: string, b: string :: host.lower(l) == a + host.lower(r) + b
                 else if op.StartsWith? then exists b: string :: host.lower(l) == host.lower(r) + b
                 else op.Regex? && host.regex(r, l);
      exists next ::
        && GoesTo(doc.edges, id, Some(yes), next)
        && var rest := Walk(host, doc, next, ctx, vars, w, fuel - 1);
           Walk(host, doc, Some(id), ctx, vars, w, fuel) == Trace([id] + rest.visited, rest.ending, rest.world)
  {
    hide Walk, Rendered, FindIn, NextNodeId, GoesTo, Holds;
    var Condition(lhs, op, r) := FindIn(doc.nodes, id).value.kind;
    var l := Rendered(host, lhs, ctx, vars);
    HoldsIff(host, l, op, r);
    WalkNext(host, doc, Some(id), ctx, vars, w, fuel);
    NextNodeIdIs(doc.edges, id, Some(Holds(host, l, op, r)));
  }

  lemma HoldsIff(host: Host, l: string, op: Op, r: string)
    ensures Holds(host, l, op, r)
            <==> if op.Equals? then l == r
                 else if op.Contains? then exists a: string, b: string :: host.lower(l) == a + host.lower(r) + b
                 else if op.StartsWith? then exists b: string :: host.lower(l) == host.lower(r) + b
                 else op.Regex? && host.regex(r, l)
  {
    hide IsInfix;
    InfixIff(host.lower(r), host.lower(l));
    PrefixIff(host.lower(r), host.lower(l));
  }

  lemma InfixIff(x: string, y: string)
    ensures IsInfix(x, y) <==> exists a: string, b: string :: y == a + x + b
  {
    if IsInfix(x, y) {
      var i :| 0 <= i <= |y| && x <= y[i..];
      assert y == y[..i] + x + y[i + |x|..];
    }
    if a: string, b: string :| y == a + x + b {
      assert y[|a|..] == x + b;
      assert x <= y[|a|..];
    }
  }

  lemma PrefixIff(x: string, y: string)
    ensures x <= y <==> exists b: string :: y == x + b
  {
    if x <= y { assert y == x + y[|x|..]; }
  }

  /** Every other node leads along its first edge, and one that throws ends the run there. */
  lemma OthersLead(host: Host, doc: Doc, id: string, ctx: Context, vars: Vars, w: World, fuel: nat)
    requires id != "" && fuel > 0 && FindIn(doc.nodes, id).Some? && !FindIn(doc.nodes, id).value.kind.Condition?
    ensures var r := Exec(host, FindIn(doc.nodes, id).value, ctx, vars, w);
      if r.Threw? then Walk(host, doc, Some(id), ctx, vars, w, fuel) == Trace([id], Failed, r.world)
      else exists next ::
        && GoesTo(doc.edges, id, None, next)
        && var rest := Walk(host, doc, next, ctx, r.vars, r.world, fuel - 1);
           Walk(host, doc, Some(id), ctx, vars, w, fuel) == Trace([id] + rest.visited, rest.ending, rest.world)
  {
    hide Walk, FindIn, NextNodeId, GoesTo, Exec;
    NoBranch(host, FindIn(doc.nodes, id).value, ctx, vars, w);
    WalkNext(host, doc, Some(id), ctx, vars, w, fuel);
    NextNodeIdIs(doc.edges, id, None);
  }

  lemma NoBranch(host: Host, node: Node, ctx: Context, vars: Vars, w: World)
    ensures var r := Exec(host, node, ctx, vars, w); r.Went? && !node.kind.Condition? ==> r.branch.None?
  {
  }

  /** The pipeline exists, is the client's and has a stage. */
  predicate CanDeal(pipelines: map<string, Pipeline>, id: string, client: string) {
    id != "" && id in pipelines && pipelines[id].clientId == client && pipelines[id].firstStage.Some?
  }

  /** A node throws exactly when its kind is unknown, it writes to a conversation or contact that does not exist, or
      the queue refuses its job. */
  lemma ThrowsIff(host: Host, node: Node, ctx: Context, vars: Vars, w: World)
    ensures var k := node.kind;
      Exec(host, node, ctx, vars, w).Threw? <==>
        || k.Unknown?
        || ((k.SendMessage? || k.Assign?) && ctx.conversationId.Some? && !w.conversationExists)
        || (k.SendMessage? && ctx.conversationId.Some? && host.addFails(|w.messages|))
        || (k.UpdateContact? && w.contact.None?)
        || (k.CreateDeal? && CanDeal(w.pipelines, k.pipelineId, ctx.clientId) && w.contact.None?)
  {
    hide Rendered, Holds, Without;
  }

  /** Each kind of node writes its own part of the world and leaves the rest, variables included. */
  lemma TouchesOnly(host: Host, node: Node, ctx: Context, vars: Vars, w: World)
    ensures var k := node.kind; var r := Exec(host, node, ctx, vars, w);
      && r.world.conversationExists == w.conversationExists && r.world.pipelines == w.pipelines
      && (!k.SendMessage? ==> r.world.messages == w.messages && r.world.jobs == w.jobs)
      && (!k.AddTag? && !k.RemoveTag? && !k.UpdateContact? ==> r.world.contact == w.contact)
      && (!k.Assign? ==> r.world.assignedTo == w.assignedTo && r.world.status == w.status)
      && (!k.CreateDeal? ==> r.world.deals == w.deals && (r.Went? ==> r.vars == vars))
      && (!k.Webhook? ==> r.world.posts == w.posts)
  {
    hide Rendered, Holds, Without;
  }

  /** Tag nodes leave the other fields of the contact, updates its tags, and none creates or removes it. */
  lemma ContactKept(host: Host, node: Node, ctx: Context, vars: Vars, w: World)
    requires node.kind.AddTag? || node.kind.RemoveTag? || node.kind.UpdateContact?
    ensures var k := node.kind; var after := Exec(host, node, ctx, vars, w).world.contact;
      if w.contact.None? then after.None?
      else after.Some? && if k.UpdateContact? then after.value.tags == w.contact.value.tags
                          else after.value == w.contact.value.(tags := after.value.tags)
  {
    hide Without;
  }

  /** What each kind writes when it goes through. */
  lemma Writes(host: Host, node: Node, ctx: Context, vars: Vars, w: World)
    requires Exec(host, node, ctx, vars, w).Went?
    ensures var k := node.kind; var r := Exec(host, node, ctx, vars, w); var u := r.world;
      && (k.SendMessage? ==>
            if ctx.conversationId.None? then u == w
            else u.messages == w.messages + [Rendered(host, k.text, ctx, vars)] && u.jobs == w.jobs + [|w.messages|])
      && (k.Assign? ==>
            if ctx.conversationId.None? then u == w
            else
              && u.assignedTo == k.member && (u.status == ASSIGNED || u.status == OPEN)
              && (u.status == OPEN <==> k.member == None || k.member == Some("")))
      && (k.AddTag? && w.contact.Some? ==>
            u.contact.value.tags == if k.tag == "" || k.tag in w.contact.value.tags then w.contact.value.tags
                                    else w.contact.value.tags + [k.tag])
      && (k.CreateDeal? ==>
            if !CanDeal(w.pipelines, k.pipelineId, ctx.clientId) then u == w && r.vars == vars
            else
              && |u.deals| == |w.deals| + 1 && u.deals[..|w.deals|] == w.deals
              && var deal := u.deals[|w.deals|];
                 && deal.pipelineId == k.pipelineId && w.pipelines[k.pipelineId].firstStage == Some(deal.stageId)
                 && deal.title == Rendered(host, k.title, ctx, vars)
                 && "lastDealId" in r.vars && r.vars["lastDealId"] == deal.id == host.dealId(|w.deals|)
                 && r.vars.Keys == vars.Keys + {"lastDealId"}
                 && forall v :: v in vars && v != "lastDealId" ==> r.vars[v] == vars[v])
      && (k.Webhook? ==> u.posts == if k.url != "" && !host.blocked(k.url) then w.posts + [k.url] else w.posts)
  {
    hide Rendered, Holds, Without;
  }

  /** An update sets the fields it gives and leaves the others. */
  lemma UpdatesContact(host: Host, node: Node, ctx: Context, vars: Vars, w: World)
    requires node.kind.UpdateContact? && w.contact.Some?
    ensures var k := node.kind; var was := w.contact.value; var r := Exec(host, node, ctx, vars, w);
      && r.Went? && r.world.contact.Some?
      && var row := r.world.contact.value;
         && (if k.name.Some? then row.name == k.name else row.name == was.name)
         && (if k.email.Some? then row.email == k.email else row.email == was.email)
         && (if k.language.Some? then row.language == k.language else row.language == was.language)
         && (if k.stage.Some? then row.stage == k.stage else row.stage == was.stage)
  {
  }

  /** An END node does not stop a run by itself: the run visits nothing after it exactly when the node's first edge
      is missing, leads to the empty id or leads to no node. */
  lemma EndStopsIff(host: Host, doc: Doc, id: string, ctx: Context, vars: Vars, w: World, fuel: nat)
    requires id != "" && FindIn(doc.nodes, id) == Some(Node(id, End)) && fuel >= 2
    ensures var next := First(doc.edges, id);
      Walk(host, doc, Some(id), ctx, vars, w, fuel).visited == [id]
      <==> next.None? || next.value == "" || next.value !in Ids(doc.nodes)
  {
    hide FindIn, First;
    var next := First(doc.edges, id);
    WalkNext(host, doc, Some(id), ctx, vars, w, fuel);
    if next.Some? && next.value != "" {
      WalkNext(host, doc, next, ctx, vars, w, fuel - 1);
      FoundIff(doc.nodes, next.value);
    }
  }

  lemma FoundIff(nodes: seq<Node>, id: string)
    ensures FindIn(nodes, id).Some? <==> id in Ids(nodes)
  {
  }

  // ---- walks that cannot be influenced by their own effects ----

  predicate MakesNoDeals(doc: Doc) { forall n :: n in doc.nodes ==> !n.kind.CreateDeal? }

  /** No condition reads the variable that creating a deal sets. */
  predicate ReadsNoDeal(doc: Doc, ctx: Context) {
    forall n :: n in doc.nodes && n.kind.Condition? ==> !Template.FlowReads("lastDealId", n.kind.lhs, ctx.message, ctx.contactId)
  }

  /** The document makes no deals, or none of its conditions can tell. */
  predicate Steady(doc: Doc, ctx: Context) { MakesNoDeals(doc) || ReadsNoDeal(doc, ctx) }

  ghost predicate QueueUp(host: Host) { forall n: nat :: !host.addFails(n) }

  /** What no node changes. */
  datatype Fixed = Fixed(hasContact: bool, hasConversation: bool, pipelines: map<string, Pipeline>)

  function FixedOf(w: World): Fixed { Fixed(w.contact.Some?, w.conversationExists, w.pipelines) }

  /** Where a node leads, as a function of the node alone. */
  datatype Move = Halt | Fail | Go(next: Option<string>)

  function MoveFrom(host: Host, doc: Doc, id: string, ctx: Context, x: Fixed): Move {
    var found := FindIn(doc.nodes, id);
    if id == "" || found.None? then Halt
    else match found.value.kind
      case SendMessage(_) => if ctx.conversationId.Some? && !x.hasConversation then Fail else Go(First(doc.edges, id))
      case Assign(_) => if ctx.conversationId.Some? && !x.hasConversation then Fail else Go(First(doc.edges, id))
      case UpdateContact(_, _, _, _) => if !x.hasContact then Fail else Go(First(doc.edges, id))
      case CreateDeal(p, _) => if CanDeal(x.pipelines, p, ctx.clientId) && !x.hasContact then Fail else Go(First(doc.edges, id))
      case Unknown => Fail
      case Condition(lhs, op, rhs) =>
        Go(NextNodeId(doc.edges, id, Some(Holds(host, Rendered(host, lhs, ctx, map[]), op, rhs))))
      case _ => Go(First(doc.edges, id))
  }

  /** The same walk without its effects. */
  function Trail(host: Host, doc: Doc, current: Option<string>, ctx: Context, x: Fixed, fuel: nat): (seq<string>, Ending)
    decreases fuel
  {
    if current.None? || current.value == "" then ([], Stopped)
    else if fuel == 0 then ([], Capped(current.value))
    else match MoveFrom(host, doc, current.value, ctx, x)
      case Halt => ([], Stopped)
      case Fail => ([current.value], Failed)
      case Go(next) =>
        var (v, e) := Trail(host, doc, next, ctx, x, fuel - 1);
        ([current.value] + v, e)
  }

  /** Variables a run may have: at most the last deal's, and none when it makes no deals. */
  predicate DealVars(doc: Doc, vars: Vars) { vars.Keys <= {"lastDealId"} && (MakesNoDeals(doc) ==> vars == map[]) }

  lemma BlindCondition(host: Host, doc: Doc, node: Node, ctx: Context, vars: Vars)
    requires Steady(doc, ctx) && DealVars(doc, vars) && node in doc.nodes && node.kind.Condition?
    ensures Rendered(host, node.kind.lhs, ctx, vars) == Rendered(host, node.kind.lhs, ctx, map[])
  {
    if !MakesNoDeals(doc) {
      Template.FlowBlind("lastDealId", node.kind.lhs, ctx.message, ctx.contactId, host.inherited + vars, host.inherited + map[]);
    }
  }

  /** Every node but a condition and a deal, whatever the variables. */
  lemma PlainMoves(host: Host, doc: Doc, id: string, ctx: Context, vars: Vars, w: World)
    requires QueueUp(host) && id != "" && FindIn(doc.nodes, id).Some?
    requires !FindIn(doc.nodes, id).value.kind.Condition? && !FindIn(doc.nodes, id).value.kind.CreateDeal?
    ensures var r := Exec(host, FindIn(doc.nodes, id).value, ctx, vars, w);
      if r.Threw? then MoveFrom(host, doc, id, ctx, FixedOf(w)) == Fail
      else MoveFrom(host, doc, id, ctx, FixedOf(w)) == Go(NextNodeId(doc.edges, id, r.branch)) && r.vars == vars && FixedOf(r.world) == FixedOf(w)
  {
    hide Rendered, Holds, Without, FindIn, First, Branched;
  }

  lemma DealMoves(host: Host, doc: Doc, id: string, ctx: Context, vars: Vars, w: World)
    requires id != "" && FindIn(doc.nodes, id).Some? && FindIn(doc.nodes, id).value.kind.CreateDeal?
    ensures var r := Exec(host, FindIn(doc.nodes, id).value, ctx, vars, w);
      if r.Threw? then MoveFrom(host, doc, id, ctx, FixedOf(w)) == Fail
      else
        && MoveFrom(host, doc, id, ctx, FixedOf(w)) == Go(NextNodeId(doc.edges, id, r.branch)) && FixedOf(r.world) == FixedOf(w)
        && r.vars.Keys <= vars.Keys + {"lastDealId"}
  {
    hide Rendered, Holds, Without, FindIn, First, Branched;
  }

  lemma ExecMoves(host: Host, doc: Doc, id: string, ctx: Context, vars: Vars, w: World)
    requires Steady(doc, ctx) && DealVars(doc, vars) && QueueUp(host) && id != "" && FindIn(doc.nodes, id).Some?
    ensures var move := MoveFrom(host, doc, id, ctx, FixedOf(w));
      var r := Exec(host, FindIn(doc.nodes, id).value, ctx, vars, w);
      if r.Threw? then move == Fail
      else move == Go(NextNodeId(doc.edges, id, r.branch)) && DealVars(doc, r.vars) && FixedOf(r.world) == FixedOf(w)
  {
    var node := FindIn(doc.nodes, id).value;
    if node.kind.Condition? {
      hide Rendered, Holds, Steady, FindIn, First, Branched;
      BlindCondition(host, doc, node, ctx, vars);
    } else {
      hide Exec, MoveFrom, FindIn, NextNodeId, FixedOf;
      if node.kind.CreateDeal? { DealMoves(host, doc, id, ctx, vars, w); } else { PlainMoves(host, doc, id, ctx, vars, w); }
    }
  }

  /** On a steady document, with the queue up, the nodes a run visits do not depend on what its own nodes change. */
  lemma {:induction false} WalkIsTrail(host: Host, doc: Doc, current: Option<string>, ctx: Context, vars: Vars, w: World, fuel: nat)
    requires Steady(doc, ctx) && DealVars(doc, vars) && QueueUp(host)
    ensures var t := Walk(host, doc, current, ctx, vars, w, fuel);
      (t.visited, t.ending) == Trail(host, doc, current, ctx, FixedOf(w), fuel)
    decreases fuel
  {
    hide Exec, NextNodeId, FindIn, Steady, DealVars, QueueUp, FixedOf;
    if current.Some? && current.value != "" && fuel > 0 {
      var found := FindIn(doc.nodes, current.value);
      if found.Some? {
        ExecMoves(host, doc, current.value, ctx, vars, w);
        match Exec(host, found.value, ctx, vars, w) {
          case Threw(_) =>
          case Went(branch, vars', w') =>
            WalkIsTrail(host, doc, NextNodeId(doc.edges, current.value, branch), ctx, vars', w', fuel - 1);
        }
      } else {
        NoNodeHalts(host, doc, current.value, ctx, w);
      }
    }
  }

  lemma NoNodeHalts(host: Host, doc: Doc, id: string, ctx: Context, w: World)
    requires FindIn(doc.nodes, id).None?
    ensures MoveFrom(host, doc, id, ctx, FixedOf(w)) == Halt
  {
  }

  // ---- orbit and pigeonhole ----

  lemma {:induction false} Pigeonhole(v: seq<string>, s: set<string>)
    requires Distinct(v) && forall i :: 0 <= i < |v| ==> v[i] in s
    ensures |v| <= |s|
  {
    if v != [] {
      var n := |v| - 1;
      Pigeonhole(v[..n], s - {v[n]});
    }
  }

  /** From its i-th node on, a walk is the walk that starts there. */
  lemma {:induction false} TrailSuffix(host: Host, doc: Doc, current: Option<string>, ctx: Context, x: Fixed, fuel: nat, i: nat)
    requires i < |Trail(host, doc, current, ctx, x, fuel).0|
    ensures var (v, e) := Trail(host, doc, current, ctx, x, fuel);
      i < fuel && Trail(host, doc, Some(v[i]), ctx, x, fuel - i) == (v[i..], e)
    decreases fuel
  {
    hide MoveFrom;
    var (v, e) := Trail(host, doc, current, ctx, x, fuel);
    if i == 0 {
      assert v[0..] == v;
    } else {
      match MoveFrom(host, doc, current.value, ctx, x) {
        case Go(next) =>
          var (v', e') := Trail(host, doc, next, ctx, x, fuel - 1);
          assert v == [current.value] + v';
          TrailSuffix(host, doc, next, ctx, x, fuel - 1, i - 1);
          assert v[i] == v'[i - 1] && v[i..] == v'[i - 1..];
        case _ =>
      }
    }
  }

  /** A walk that ends by itself is the same for every fuel that lets it end. */
  lemma {:induction false} TrailStable(host: Host, doc: Doc, current: Option<string>, ctx: Context, x: Fixed, f: nat, g: nat)
    requires !Trail(host, doc, current, ctx, x, f).1.Capped?
    requires !Trail(host, doc, current, ctx, x, g).1.Capped? || g > |Trail(host, doc, current, ctx, x, f).0|
    ensures Trail(host, doc, current, ctx, x, f) == Trail(host, doc, current, ctx, x, g)
    decreases f
  {
    hide MoveFrom;
    if current.Some? && current.value != "" {
      match MoveFrom(host, doc, current.value, ctx, x) {
        case Go(next) => TrailStable(host, doc, next, ctx, x, f - 1, g - 1);
        case _ =>
      }
    }
  }

  /** A walk that ends by itself meets no node twice: two visits to a node would have to end alike, yet the
      first is the longer way to go. */
  lemma EndsDistinct(host: Host, doc: Doc, current: Option<string>, ctx: Context, x: Fixed, fuel: nat)
    requires !Trail(host, doc, current, ctx, x, fuel).1.Capped?
    ensures Distinct(Trail(host, doc, current, ctx, x, fuel).0)
  {
    hide MoveFrom, Trail;
    var v := Trail(host, doc, current, ctx, x, fuel).0;
    forall i, j | 0 <= i < j < |v| ensures v[i] != v[j] {
      TrailSuffix(host, doc, current, ctx, x, fuel, i);
      TrailSuffix(host, doc, current, ctx, x, fuel, j);
      if v[i] == v[j] {
        TrailStable(host, doc, Some(v[i]), ctx, x, fuel - i, fuel - j);
      }
    }
  }

  lemma {:induction false} TrailVisitsNodes(host: Host, doc: Doc, current: Option<string>, ctx: Context, x: Fixed, fuel: nat)
    ensures var (v, e) := Trail(host, doc, current, ctx, x, fuel);
      && |v| <= fuel && (e.Capped? ==> |v| == fuel)
      && forall i :: 0 <= i < |v| ==> v[i] in Ids(doc.nodes)
    decreases fuel
  {
    if current.Some? && current.value != "" && fuel > 0 {
      match MoveFrom(host, doc, current.value, ctx, x) {
        case Go(next) => TrailVisitsNodes(host, doc, next, ctx, x, fuel - 1);
        case _ =>
      }
    }
  }

  /** With one more unit of fuel a capped walk that was about to look up a missing node stops. */
  lemma {:induction false} MissingStops(host: Host, doc: Doc, current: Option<string>, ctx: Context, x: Fixed, fuel: nat)
    requires var e := Trail(host, doc, current, ctx, x, fuel).1; e.Capped? && e.next !in Ids(doc.nodes)
    ensures Trail(host, doc, current, ctx, x, fuel + 1) == (Trail(host, doc, current, ctx, x, fuel).0, Stopped)
    decreases fuel
  {
    if fuel > 0 {
      match MoveFrom(host, doc, current.value, ctx, x) {
        case Go(next) => MissingStops(host, doc, next, ctx, x, fuel - 1);
        case _ =>
      }
    }
  }

  /** The cap cut off a node that would have been executed. */
  predicate Truncated(doc: Doc, t: Trace) { t.ending.Capped? && t.ending.next in Ids(doc.nodes) }

  /** On a steady document a run that the cap does not cut off has executed each visited node once. */
  lemma UntruncatedVisitsOnce(host: Host, doc: Doc, start: string, ctx: Context, w: World, fuel: nat)
    requires Steady(doc, ctx) && QueueUp(host)
    requires !Truncated(doc, Walk(host, doc, Some(start), ctx, map[], w, fuel))
    ensures var v := Walk(host, doc, Some(start), ctx, map[], w, fuel).visited;
      Distinct(v) && |v| <= |Ids(doc.nodes)|
  {
    hide Trail, Walk;
    var x := FixedOf(w);
    WalkIsTrail(host, doc, Some(start), ctx, map[], w, fuel);
    TrailVisitsNodes(host, doc, Some(start), ctx, x, fuel);
    if Trail(host, doc, Some(start), ctx, x, fuel).1.Capped? {
      MissingStops(host, doc, Some(start), ctx, x, fuel);
      EndsDistinct(host, doc, Some(start), ctx, x, fuel + 1);
    } else {
      EndsDistinct(host, doc, Some(start), ctx, x, fuel);
    }
    Pigeonhole(Walk(host, doc, Some(start), ctx, map[], w, fuel).visited, Ids(doc.nodes));
  }

  /** The dichotomy. On a steady document of at most 100 node ids a run either ends by itself,
      having executed each visited node once, or it executes exactly 100 nodes, and then no cap however large
      would have let it end. */
  lemma Dichotomy(host: Host, doc: Doc, start: string, ctx: Context, w: World)
    requires Steady(doc, ctx) && QueueUp(host) && |Ids(doc.nodes)| <= MAX_NODES
    ensures var t := Walk(host, doc, Some(start), ctx, map[], w, MAX_NODES);
      if Truncated(doc, t)
      then |t.visited| == MAX_NODES && forall f: nat :: Truncated(doc, Walk(host, doc, Some(start), ctx, map[], w, f))
      else Distinct(t.visited) && |t.visited| <= |Ids(doc.nodes)|
  {
    hide Trail, Walk;
    var t := Walk(host, doc, Some(start), ctx, map[], w, MAX_NODES);
    if Truncated(doc, t) {
      WalkIsTrail(host, doc, Some(start), ctx, map[], w, MAX_NODES);
      TrailVisitsNodes(host, doc, Some(start), ctx, FixedOf(w), MAX_NODES);
      forall f: nat
        ensures Truncated(doc, Walk(host, doc, Some(start), ctx, map[], w, f))
      {
        Endless(host, doc, start, ctx, w, f);
      }
    } else {
      UntruncatedVisitsOnce(host, doc, start, ctx, w, MAX_NODES);
    }
  }

  lemma Endless(host: Host, doc: Doc, start: string, ctx: Context, w: World, f: nat)
    requires Steady(doc, ctx) && QueueUp(host) && |Ids(doc.nodes)| <= MAX_NODES
    requires Truncated(doc, Walk(host, doc, Some(start), ctx, map[], w, MAX_NODES))
    ensures Truncated(doc, Walk(host, doc, Some(start), ctx, map[], w, f))
  {
    hide Trail, Walk;
    var x := FixedOf(w);
    WalkIsTrail(host, doc, Some(start), ctx, map[], w, MAX_NODES);
    WalkIsTrail(host, doc, Some(start), ctx, map[], w, f);
    if !Truncated(doc, Walk(host, doc, Some(start), ctx, map[], w, f)) {
      UntruncatedVisitsOnce(host, doc, start, ctx, w, f);
      var g := if Trail(host, doc, Some(start), ctx, x, f).1.Capped? then f + 1 else f;
      if g == f + 1 { MissingStops(host, doc, Some(start), ctx, x, f); }
      var v := Trail(host, doc, Some(start), ctx, x, g).0;
      if |v| < MAX_NODES {
        TrailStable(host, doc, Some(start), ctx, x, g, MAX_NODES);
      } else {
        FullWalk(host, doc, Some(start), ctx, x, g, MAX_NODES);
      }
    }
  }

  /** A walk that ends by itself after exactly `fuel` nodes is not cut off by that fuel. */
  lemma {:induction false} FullWalk(host: Host, doc: Doc, current: Option<string>, ctx: Context, x: Fixed, g: nat, fuel: nat)
    requires !Trail(host, doc, current, ctx, x, g).1.Capped? && |Trail(host, doc, current, ctx, x, g).0| == fuel
    ensures var e := Trail(host, doc, current, ctx, x, fuel).1; e.Capped? ==> e.next !in Ids(doc.nodes)
    decreases fuel
  {
    if current.Some? && current.value != "" {
      match MoveFrom(host, doc, current.value, ctx, x) {
        case Go(next) => if fuel > 0 { FullWalk(host, doc, next, ctx, x, g - 1, fuel - 1); }
        case _ =>
      }
    }
  }

  // ---- acyclic documents ----

  predicate HasEdge(edges: seq<Edge>, a: string, b: string) { exists e :: e in edges && e.source == a && e.target == b }

  predicate IsPath(edges: seq<Edge>, p: seq<string>) { forall i :: 0 <= i < |p| - 1 ==> HasEdge(edges, p[i], p[i + 1]) }

  ghost predicate Acyclic(doc: Doc) {
    forall p: seq<string> :: |p| >= 2 && IsPath(doc.edges, p) ==> p[0] != p[|p| - 1]
  }

  lemma {:induction false} BranchedIsEdge(edges: seq<Edge>, source: string, branch: bool)
    ensures Branched(edges, source, branch).Some? ==> HasEdge(edges, source, Branched(edges, source, branch).value)
  {
    if edges != [] {
      BranchedIsEdge(edges[1..], source, branch);
      assert edges[0] in edges;
      assert forall e :: e in edges[1..] ==> e in edges;
    }
  }

  lemma {:induction false} FirstIsEdge(edges: seq<Edge>, source: string)
    ensures First(edges, source).Some? ==> HasEdge(edges, source, First(edges, source).value)
  {
    if edges != [] {
      FirstIsEdge(edges[1..], source);
      assert edges[0] in edges;
      assert forall e :: e in edges[1..] ==> e in edges;
    }
  }

  lemma NextIsEdge(edges: seq<Edge>, source: string, branch: Option<bool>)
    ensures NextNodeId(edges, source, branch).Some? ==> HasEdge(edges, source, NextNodeId(edges, source, branch).value)
  {
    FirstIsEdge(edges, source);
    if branch.Some? { BranchedIsEdge(edges, source, branch.value); }
  }

  /** What a run visits, and the node it was cut off before, is a path of the document, whatever the nodes do. */
  lemma {:induction false} WalkIsPath(host: Host, doc: Doc, current: Option<string>, ctx: Context, vars: Vars, w: World, fuel: nat)
    ensures var t := Walk(host, doc, current, ctx, vars, w, fuel);
      var p := if t.ending.Capped? then t.visited + [t.ending.next] else t.visited;
      && IsPath(doc.edges, p) && (p != [] ==> current == Some(p[0]))
      && (t.ending.Capped? ==> |t.visited| == fuel)
      && forall i :: 0 <= i < |t.visited| ==> t.visited[i] in Ids(doc.nodes)
    decreases fuel
  {
    hide Exec, NextNodeId, HasEdge, Walk, Ids;
    if current.None? || current.value == "" || fuel == 0 {
      WalkDone(host, doc, current, ctx, vars, w, fuel);
    } else {
      WalkNext(host, doc, current, ctx, vars, w, fuel);
      var found := FindIn(doc.nodes, current.value);
      if found.Some? {
        match Exec(host, found.value, ctx, vars, w) {
          case Threw(_) =>
          case Went(branch, vars', w') =>
            var next := NextNodeId(doc.edges, current.value, branch);
            WalkIsPath(host, doc, next, ctx, vars', w', fuel - 1);
            NextIsEdge(doc.edges, current.value, branch);
            var rest := Walk(host, doc, next, ctx, vars', w', fuel - 1);
            var q := if rest.ending.Capped? then rest.visited + [rest.ending.next] else rest.visited;
            PathCons(doc.edges, current.value, q);
            assert rest.ending.Capped? ==> [current.value] + rest.visited + [rest.ending.next] == [current.value] + q;
        }
      }
    }
  }

  lemma PathCons(edges: seq<Edge>, a: string, q: seq<string>)
    requires IsPath(edges, q) && (q != [] ==> HasEdge(edges, a, q[0]))
    ensures IsPath(edges, [a] + q)
  {
    hide HasEdge;
    var p := [a] + q;
    forall i | 0 <= i < |p| - 1 ensures HasEdge(edges, p[i], p[i + 1]) {
      if i > 0 { assert p[i] == q[i - 1] && p[i + 1] == q[i]; }
    }
  }

  lemma AcyclicDistinct(doc: Doc, p: seq<string>)
    requires Acyclic(doc) && IsPath(doc.edges, p)
    ensures Distinct(p)
  {
    forall i, j | 0 <= i < j < |p| ensures p[i] != p[j] {
      var q := p[i..j + 1];
      assert IsPath(doc.edges, q) by {
        forall m | 0 <= m < |q| - 1 ensures HasEdge(doc.edges, q[m], q[m + 1]) {
          assert q[m] == p[i + m] && q[m + 1] == p[i + m + 1];
        }
      }
    }
  }

  /** On an acyclic document of at most 100 node ids the cap never cuts a run off, deals or no deals. */
  lemma AcyclicNeverTruncated(host: Host, doc: Doc, start: string, ctx: Context, w: World)
    requires Acyclic(doc) && |Ids(doc.nodes)| <= MAX_NODES
    ensures var t := Walk(host, doc, Some(start), ctx, map[], w, MAX_NODES);
      !Truncated(doc, t) && Distinct(t.visited)
  {
    hide Walk, IsPath;
    var t := Walk(host, doc, Some(start), ctx, map[], w, MAX_NODES);
    WalkIsPath(host, doc, Some(start), ctx, map[], w, MAX_NODES);
    if t.ending.Capped? {
      var p := t.visited + [t.ending.next];
      AcyclicDistinct(doc, p);
      assert forall i :: 0 <= i < |t.visited| ==> t.visited[i] == p[i];
      if t.ending.next in Ids(doc.nodes) {
        Pigeonhole(p, Ids(doc.nodes));
      }
    } else {
      AcyclicDistinct(doc, t.visited);
    }
  }

  // ---- what every run keeps ----

  ghost predicate TagsDistinct(w: World) { w.contact.Some? ==> Distinct(w.contact.value.tags) }

  /** Messages are queued at most once, in order, and all but the last `late` are. */
  ghost predicate QueuedInOrder(w: World, late: nat) {
    |w.messages| == |w.jobs| + late && forall i :: 0 <= i < |w.jobs| ==> w.jobs[i] == i
  }

  lemma {:induction false} WithoutMember(tags: seq<string>, tag: string)
    ensures Distinct(tags) ==> Distinct(Without(tags, tag))
    ensures forall t :: t in Without(tags, tag) <==> t in tags && t != tag
  {
    if tags != [] {
      var n := |tags| - 1;
      WithoutMember(tags[..n], tag);
      assert tags == tags[..n] + [tags[n]];
      assert Distinct(tags) ==> Distinct(tags[..n]) && tags[n] !in tags[..n];
    }
  }

  lemma ExecKeepsTags(host: Host, node: Node, ctx: Context, vars: Vars, w: World)
    requires TagsDistinct(w)
    ensures TagsDistinct(Exec(host, node, ctx, vars, w).world)
  {
    hide Rendered, Holds, Without;
    if node.kind.RemoveTag? && w.contact.Some? { WithoutMember(w.contact.value.tags, node.kind.tag); }
  }

  /** Only a send whose add fails leaves a message without its job, and it throws. */
  lemma ExecQueues(host: Host, node: Node, ctx: Context, vars: Vars, w: World)
    requires QueuedInOrder(w, 0)
    ensures var r := Exec(host, node, ctx, vars, w);
      && r.world.conversationExists == w.conversationExists
      && (r.Went? ==> QueuedInOrder(r.world, 0))
      && (r.Threw? ==>
            if node.kind.SendMessage? && w.conversationExists then QueuedInOrder(r.world, 1) && host.addFails(|r.world.jobs|)
            else QueuedInOrder(r.world, 0))
  {
    hide Rendered, Holds, Without;
  }

  lemma {:induction false} WithoutAbsent(tags: seq<string>, tag: string)
    requires tag !in tags
    ensures Without(tags, tag) == tags
  {
    if tags != [] {
      var n := |tags| - 1;
      assert tags == tags[..n] + [tags[n]];
      WithoutAbsent(tags[..n], tag);
    }
  }

  /** An added tag is there, added again it changes nothing, and removing it undoes the addition. */
  lemma TagRoundTrip(host: Host, id: string, tag: string, ctx: Context, vars: Vars, w: World)
    requires w.contact.Some? && tag != "" && tag !in w.contact.value.tags
    ensures var added := Exec(host, Node(id, AddTag(tag)), ctx, vars, w);
      && added.Went? && added.world.contact.Some? && tag in added.world.contact.value.tags
      && Exec(host, Node(id, AddTag(tag)), ctx, vars, added.world) == added
      && Exec(host, Node(id, RemoveTag(tag)), ctx, vars, added.world) == Went(None, vars, w)
  {
    hide Exec;
    var tags := w.contact.value.tags;
    var more := w.(contact := Some(w.contact.value.(tags := tags + [tag])));
    AddedTag(host, id, tag, ctx, vars, w);
    AddedTag(host, id, tag, ctx, vars, more);
    RemovedTag(host, id, tag, ctx, vars, more);
    assert (tags + [tag])[..|tags|] == tags;
    WithoutAbsent(tags, tag);
    assert Without(tags + [tag], tag) == tags;
  }

  lemma AddedTag(host: Host, id: string, tag: string, ctx: Context, vars: Vars, w: World)
    requires w.contact.Some? && tag != ""
    ensures var c := w.contact.value;
      Exec(host, Node(id, AddTag(tag)), ctx, vars, w)
      == Went(None, vars, if tag in c.tags then w else w.(contact := Some(c.(tags := c.tags + [tag]))))
  {
  }

  lemma RemovedTag(host: Host, id: string, tag: string, ctx: Context, vars: Vars, w: World)
    requires w.contact.Some?
    ensures Exec(host, Node(id, RemoveTag(tag)), ctx, vars, w)
      == Went(None, vars, w.(contact := Some(w.contact.value.(tags := Without(w.contact.value.tags, tag)))))
  {
  }

  /** The run ended in a send to an existing conversation, which can only have thrown at the queue. */
  predicate FailedAtAdd(doc: Doc, t: Trace) {
    && t.ending.Failed? && t.world.conversationExists && t.visited != []
    && var last := FindIn(doc.nodes, t.visited[|t.visited| - 1]); last.Some? && last.value.kind.SendMessage?
  }

  /** Over any run a contact's tags stay free of duplicates, every message is queued at most once and in order, and
      only the last one can lack its job: exactly when the run failed at adding it. */
  lemma {:induction false} RunKeeps(host: Host, doc: Doc, current: Option<string>, ctx: Context, vars: Vars, w: World, fuel: nat)
    requires TagsDistinct(w) && QueuedInOrder(w, 0)
    ensures var t := Walk(host, doc, current, ctx, vars, w, fuel);
      && TagsDistinct(t.world) && t.world.conversationExists == w.conversationExists
      && (t.ending.Failed? ==> t.visited != [])
      && QueuedInOrder(t.world, if FailedAtAdd(doc, t) then 1 else 0)
      && (FailedAtAdd(doc, t) ==> host.addFails(|t.world.jobs|))
    decreases fuel
  {
    hide Exec, NextNodeId, TagsDistinct, QueuedInOrder, Walk, FindIn;
    if current.None? || current.value == "" || fuel == 0 {
      WalkDone(host, doc, current, ctx, vars, w, fuel);
    } else {
      WalkNext(host, doc, current, ctx, vars, w, fuel);
      var found := FindIn(doc.nodes, current.value);
      if found.Some? {
        ExecKeepsTags(host, found.value, ctx, vars, w);
        ExecQueues(host, found.value, ctx, vars, w);
        match Exec(host, found.value, ctx, vars, w) {
          case Threw(_) =>
          case Went(branch, vars', w') =>
            RunKeeps(host, doc, NextNodeId(doc.edges, current.value, branch), ctx, vars', w', fuel - 1);
            var rest := Walk(host, doc, NextNodeId(doc.edges, current.value, branch), ctx, vars', w', fuel - 1);
            if rest.visited != [] {
              assert ([current.value] + rest.visited)[|rest.visited|] == rest.visited[|rest.visited| - 1];
            }
        }
      }
    }
  }

  /** The same runtime with a queue that accepts everything. */
  function Up(host: Host): Host { host.(addFails := n => false) }

  /** A failing queue only cuts a run short: the run goes like the one with the queue up, unless it fails at an add, and
      then it has visited the beginning of it. */
  lemma {:induction false} QueueCutsShort(host: Host, doc: Doc, current: Option<string>, ctx: Context, vars: Vars, w: World, fuel: nat)
    ensures var t, u := Walk(host, doc, current, ctx, vars, w, fuel), Walk(Up(host), doc, current, ctx, vars, w, fuel);
      t.visited <= u.visited && (t == u || FailedAtAdd(doc, t))
    decreases fuel
  {
    hide Exec, NextNodeId, Walk, FindIn;
    WalkDoneOrNext(host, doc, current, ctx, vars, w, fuel);
    WalkDoneOrNext(Up(host), doc, current, ctx, vars, w, fuel);
    if current.Some? && current.value != "" && fuel > 0 {
      var found := FindIn(doc.nodes, current.value);
      if found.Some? {
        ExecUp(host, found.value, ctx, vars, w);
        FoundNode(doc.nodes, current.value);
        match Exec(host, found.value, ctx, vars, w) {
          case Threw(_) =>
          case Went(branch, vars', w') =>
            QueueCutsShort(host, doc, NextNodeId(doc.edges, current.value, branch), ctx, vars', w', fuel - 1);
            var rest := Walk(host, doc, NextNodeId(doc.edges, current.value, branch), ctx, vars', w', fuel - 1);
            if rest.visited != [] {
              assert ([current.value] + rest.visited)[|rest.visited|] == rest.visited[|rest.visited| - 1];
            }
        }
      }
    }
  }

  lemma FoundNode(nodes: seq<Node>, id: string)
    requires FindIn(nodes, id).Some?
    ensures FindIn(nodes, id).value.id == id
  {
  }

  lemma WalkDoneOrNext(host: Host, doc: Doc, current: Option<string>, ctx: Context, vars: Vars, w: World, fuel: nat)
    ensures var walk := Walk(host, doc, current, ctx, vars, w, fuel);
      if current.None? || current.value == "" || fuel == 0
      then walk == Trace([], if current.None? || current.value == "" then Stopped else Capped(current.value), w)
      else if FindIn(doc.nodes, current.value).None? then walk == Trace([], Stopped, w)
      else
        var result := Exec(host, FindIn(doc.nodes, current.value).value, ctx, vars, w);
        if result.Threw? then walk == Trace([current.value], Failed, result.world)
        else
          var rest := Walk(host, doc, NextNodeId(doc.edges, current.value, result.branch), ctx, result.vars, result.world, fuel - 1);
          walk == Trace([current.value] + rest.visited, rest.ending, rest.world)
  {
    hide Exec, NextNodeId, Walk;
    if current.None? || current.value == "" || fuel == 0 {
      WalkDone(host, doc, current, ctx, vars, w, fuel);
    } else {
      WalkNext(host, doc, current, ctx, vars, w, fuel);
    }
  }

  lemma ExecUp(host: Host, node: Node, ctx: Context, vars: Vars, w: World)
    ensures var r := Exec(host, node, ctx, vars, w);
      || r == Exec(Up(host), node, ctx, vars, w)
      || (r.Threw? && node.kind.SendMessage? && r.world.conversationExists && Exec(Up(host), node, ctx, vars, w).Went?)
  {
    hide Without, Rendered, Holds;
    var k := node.kind;
    if k.SendMessage? {
      SameRuntime(host, k.text, UnknownOp, "", ctx, vars);
    } else if k.Condition? {
      SameRuntime(host, k.lhs, k.op, k.rhs, ctx, vars);
    } else if k.CreateDeal? {
      SameRuntime(host, k.title, UnknownOp, "", ctx, vars);
    }
  }

  lemma SameRuntime(host: Host, s: string, op: Op, rhs: string, ctx: Context, vars: Vars)
    ensures Rendered(Up(host), s, ctx, vars) == Rendered(host, s, ctx, vars)
    ensures forall l: string :: Holds(Up(host), l, op, rhs) == Holds(host, l, op, rhs)
  {
  }

  // ---- why conditions must not read the deal ----

  const DEAL_PLACEHOLDER := Template.Hole(Template.Vars, "", "vars.lastDealId", "")

  /** A condition on the last deal id, a deal if it is empty, and back to the condition. */
  function Loop(): Doc {
    Doc([Node("c", Condition(Template.Print([DEAL_PLACEHOLDER]), Equals, "")), Node("d", CreateDeal("p", "")), Node("e", End)],
        [Edge("c", "d", Some(true)), Edge("c", "e", Some(false)), Edge("d", "c", None)])
  }

  lemma PlaceholderWellFormed()
    ensures Template.WellFormed(DEAL_PLACEHOLDER) && DEAL_PLACEHOLDER.spelled[5..] == "lastDealId"
  {
    var s := "vars.lastDealId";
    assert s[..5] == "vars.";
    assert Lower("vars.") == "vars.";
    assert s[5..] == "lastDealId";
  }

  lemma DealIdRendered(host: Host, ctx: Context, vars: Vars)
    requires ctx.message.None? && '{' !in ctx.contactId && '$' !in ctx.contactId && "lastDealId" !in host.inherited
    ensures Rendered(host, Template.Print([DEAL_PLACEHOLDER]), ctx, vars) == if "lastDealId" in vars then vars["lastDealId"] else ""
  {
    hide Template.FlowTemplate, Template.Print, Template.WellFormed, Template.FlowSubstituted;
    var gs := [DEAL_PLACEHOLDER];
    PlaceholderWellFormed();
    Template.CalmIsQuiet(Template.Vars, ctx.contactId);
    Template.NoDollarIsInert(ctx.contactId);
    Template.FlowPassesAreSimultaneous(gs, None, ctx.contactId, host.inherited + vars);
    DealIdSubstituted(ctx.contactId, host.inherited + vars);
  }

  lemma DealIdSubstituted(contactId: string, vars: Vars)
    ensures Template.FlowSubstituted([DEAL_PLACEHOLDER], None, contactId, vars) == if "lastDealId" in vars then vars["lastDealId"] else ""
  {
    PlaceholderWellFormed();
    var gs := [DEAL_PLACEHOLDER];
    assert gs[1..] == [];
    assert Template.FlowSubstituted(gs[1..], None, contactId, vars) == "";
    var value := if "lastDealId" in vars then vars["lastDealId"] else "";
    assert Template.FlowMeaning(DEAL_PLACEHOLDER, None, contactId, vars) == value;
    assert value + "" == value;
  }

  /** Where a condition reads the last deal id, a run can end by itself after visiting a node twice, because creating a
      deal changes the branch. */
  lemma DealsChangeBranches(host: Host, w: World)
    requires host.dealId(|w.deals|) != "" && "lastDealId" !in host.inherited
    requires w.contact.Some? && w.pipelines == map["p" := Pipeline("client", Some("stage"))]
    ensures var t := Walk(host, Loop(), Some("c"), Context("client", "id", None, None), map[], w, MAX_NODES);
      t.visited == ["c", "d", "c", "e"] && t.ending == Stopped
  {
    hide Exec, Walk, Loop, Rendered, FindIn, NextNodeId, Ids, Template.Print;
    var ctx := Context("client", "id", None, None);
    var doc := Loop();
    var vars: Vars := map["lastDealId" := host.dealId(|w.deals|)];
    LoopLookups();
    var w1 := CreatesDeal(host, ctx, w);
    DealIdRendered(host, ctx, map[]);
    ConditionGoes(host, ctx, map[], w, true);
    SecondRound(host, ctx, vars, w1);
    OneMore(host, doc, "d", ctx, map[], w, 99, None, vars, w1);
    OneMore(host, doc, "c", ctx, map[], w, 100, Some(true), map[], w);
    assert ["c"] + (["d"] + ["c", "e"]) == ["c", "d", "c", "e"];
  }

  lemma SecondRound(host: Host, ctx: Context, vars: Vars, w: World)
    requires vars.Keys == {"lastDealId"} && vars["lastDealId"] != "" && "lastDealId" !in host.inherited
    requires ctx.message.None? && '{' !in ctx.contactId && '$' !in ctx.contactId
    ensures Walk(host, Loop(), Some("c"), ctx, vars, w, 98) == Trace(["c", "e"], Stopped, w)
  {
    hide Exec, Walk, Loop, Rendered, FindIn, NextNodeId, Ids, Template.Print;
    var doc := Loop();
    LoopLookups();
    DealIdRendered(host, ctx, vars);
    ConditionGoes(host, ctx, vars, w, false);
    EndGoes(host, ctx, vars, w);
    NothingMore(host, doc, ctx, vars, w, 96);
    OneMore(host, doc, "e", ctx, vars, w, 97, None, vars, w);
    OneMore(host, doc, "c", ctx, vars, w, 98, Some(false), vars, w);
    assert ["c"] + (["e"] + []) == ["c", "e"];
  }

  lemma LoopLookups()
    ensures var doc := Loop();
      && FindIn(doc.nodes, "c") == Some(doc.nodes[0]) && FindIn(doc.nodes, "d") == Some(doc.nodes[1]) && FindIn(doc.nodes, "e") == Some(doc.nodes[2])
      && NextNodeId(doc.edges, "c", Some(true)) == Some("d") && NextNodeId(doc.edges, "c", Some(false)) == Some("e")
      && NextNodeId(doc.edges, "d", None) == Some("c") && NextNodeId(doc.edges, "e", None) == None
  {
    var doc := Loop();
    var nodes := doc.nodes;
    assert nodes[..2][..1] == [nodes[0]];
    assert FindIn(nodes[..1], "c") == Some(nodes[0]);
    var edges := doc.edges;
    assert edges[1..] == [edges[1], edges[2]] && edges[1..][1..] == [edges[2]] && edges[1..][1..][1..] == [];
    assert First([edges[2]], "d") == Some("c") && First([edges[2]], "e") == None;
    assert First(edges[1..], "d") == Some("c") && First(edges[1..], "e") == None;
  }

  lemma CreatesDeal(host: Host, ctx: Context, w: World) returns (w1: World)
    requires w.contact.Some? && w.pipelines == map["p" := Pipeline("client", Some("stage"))] && ctx.clientId == "client"
    ensures Exec(host, Loop().nodes[1], ctx, map[], w) == Went(None, map["lastDealId" := host.dealId(|w.deals|)], w1)
  {
    w1 := Exec(host, Loop().nodes[1], ctx, map[], w).world;
  }

  lemma ConditionGoes(host: Host, ctx: Context, vars: Vars, w: World, yes: bool)
    requires yes <==> Rendered(host, Template.Print([DEAL_PLACEHOLDER]), ctx, vars) == ""
    ensures Exec(host, Loop().nodes[0], ctx, vars, w) == Went(Some(yes), vars, w)
  {
  }

  lemma EndGoes(host: Host, ctx: Context, vars: Vars, w: World)
    ensures Exec(host, Loop().nodes[2], ctx, vars, w) == Went(None, vars, w)
  {
  }

  lemma OneMore(host: Host, doc: Doc, id: string, ctx: Context, vars: Vars, w: World, fuel: nat, branch: Option<bool>, vars': Vars, w': World)
    requires fuel > 0 && id != "" && FindIn(doc.nodes, id).Some?
    requires Exec(host, FindIn(doc.nodes, id).value, ctx, vars, w) == Went(branch, vars', w')
    ensures var rest := Walk(host, doc, NextNodeId(doc.edges, id, branch), ctx, vars', w', fuel - 1);
      Walk(host, doc, Some(id), ctx, vars, w, fuel) == Trace([id] + rest.visited, rest.ending, rest.world)
  {
  }

  lemma NothingMore(host: Host, doc: Doc, ctx: Context, vars: Vars, w: World, fuel: nat)
    ensures Walk(host, doc, None, ctx, vars, w, fuel) == Trace([], Stopped, w)
  {
  }
}
