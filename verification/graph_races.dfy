/** Racing reconcilers over the symbol graph: the stored rows stay the fully resolved ones. */
module GraphRaces {
  import opened GraphDomain
  import opened GraphIncremental
  import opened GraphLookups
  import opened GraphPublication
  import opened GraphRuns

  /** A reconciliation or deletion of one document; what it publishes is built from the nodes it read. */
  datatype Job = Job(document: string, deletion: bool, build: Graph -> (set<GraphNode>, set<Fact>))

  /** The graph as four separate table reads saw it: nodes, facts, edges, unresolved rows. */
  ghost function Assembled(seen: seq<Graph>): Graph
    requires |seen| == TABLES
  {
    Graph(seen[0].nodes, seen[1].facts,
          (map i | i in seen[2].projection && seen[2].projection[i].Edge? :: seen[2].projection[i]) +
          (map i | i in seen[3].projection && seen[3].projection[i].Dangling? :: seen[3].projection[i]))
  }

  /** Applying to the stored graph a batch whose affected set and rows were computed from the reads. */
  ghost function PublishOver(job: Job, seen: seq<Graph>, g: Graph): Graph {
    if |seen| != TABLES then g else
    var view := Assembled(seen);
    var (nodes, facts) := job.build(view);
    if !Projectable(view, job.document, nodes, facts) then g else
    var affected := Affected(view, job.document, nodes, facts);
    Graph(NodesAfter(g, job.document, nodes), FactsAfter(g, job.document, facts),
          (Cascade(g.projection, Gone(g, job.document, nodes)) - affected) +
          Reprojected(FactsAfter(view, job.document, facts), NodesAfter(view, job.document, nodes), affected))
  }

  ghost function GraphWork(): Work<Job, Graph> {
    Work((job: Job) => job.deletion, (job, seen, g) => PublishOver(job, seen, g))
  }

  lemma AssembledIs(g: Graph)
    ensures Assembled(seq(TABLES, _ => g)) == g
  {
    assert Assembled(seq(TABLES, _ => g)).projection == g.projection;
  }

  /** Undisturbed, a job publishes the update of its document. */
  lemma AloneUpdates(job: Job, g: Graph)
    requires var (nodes, facts) := job.build(g); Projectable(g, job.document, nodes, facts)
    ensures var (nodes, facts) := job.build(g); Alone(GraphWork(), job, g) == Updated(g, job.document, nodes, facts)
  {
    AssembledIs(g);
  }

  /** What a published job must satisfy where it is published: a condition on its nodes and facts and on
      the graph they are published over. */
  ghost predicate Sound(job: Job, g: Graph) {
    var (nodes, facts) := job.build(g);
    Acceptable(g, job.document, nodes, facts) && AllNoticed(g, job.document, nodes, facts)
  }

  /** In every interleaving of any number of reconcilers, with retries, failures and lost races, the
      store always holds the fully resolved rows. */
  lemma RacesStayRight(states: seq<State<Job, Graph>>, steps: seq<Step<Graph>>, i: nat)
    requires Run(states, steps, GraphWork()) && i < |states|
    requires Right(states[0].db.graph)
    requires forall k | 0 <= k < |steps| && steps[k].SourceWrite? :: Right(steps[k].graph)
    requires forall k | 0 <= k < |steps| && Publishes(states[k], steps[k], GraphWork()) ::
      Sound(PublishedJob(states, steps, GraphWork(), k), states[k].db.graph)
    ensures Right(states[i].db.graph)
  {
    var work := GraphWork();
    forall k | 0 <= k < |steps| && Publishes(states[k], steps[k], work) && Right(states[k].db.graph)
      ensures Right(Alone(work, PublishedJob(states, steps, work, k), states[k].db.graph))
    {
      var job, g := PublishedJob(states, steps, work, k), states[k].db.graph;
      var (nodes, facts) := job.build(g);
      NoticedUpdateExact(g, job.document, nodes, facts);
      AloneUpdates(job, g);
    }
    RaceKeeps(states, steps, work, g => Right(g), i);
  }
}
