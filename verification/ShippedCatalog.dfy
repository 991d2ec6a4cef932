/** The allowlist that the repository ships, and that it is clean. */
module ShippedCatalog {
  import opened Text
  import opened Catalog

  /** One entry: a table of schema public and its columns. */
  datatype Listed = Listed(table: string, columns: seq<string>)

  predicate CleanListed(e: Listed) {
    CleanName(e.table) && forall i :: 0 <= i < |e.columns| ==> CleanName(e.columns[i])
  }

  function ColumnSet(columns: seq<string>): set<string> {
    set c | c in columns
  }

  function AllowlistOf(entries: seq<Listed>): Allowlist {
    if entries == [] then map[]
    else
      var n := |entries| - 1;
      AllowlistOf(entries[..n])["public" + "." + entries[n].table := Only(ColumnSet(entries[n].columns))]
  }

  lemma {:induction false} AllowlistOfClean(entries: seq<Listed>)
    requires forall i :: 0 <= i < |entries| ==> CleanListed(entries[i])
    ensures CleanAllowlist(AllowlistOf(entries))
  {
    hide CleanName;
    if entries != [] {
      var n := |entries| - 1;
      AllowlistOfClean(entries[..n]);
      var key := "public" + "." + entries[n].table;
      assert "public" + "." == "public.";
      assert StartsWith(key, "public.") && key[7..] == entries[n].table;
      assert CleanListed(entries[n]);
      forall c | c in ColumnSet(entries[n].columns)
        ensures CleanName(c)
      {
        var i :| 0 <= i < |entries[n].columns| && entries[n].columns[i] == c;
      }
    }
  }

  /** An entry whose table is not listed again further on is found. */
  lemma {:induction false} ListedIsFound(entries: seq<Listed>, i: nat)
    requires i < |entries| && forall j :: i < j < |entries| ==> entries[j].table != entries[i].table
    ensures var key := "public" + "." + entries[i].table;
            key in AllowlistOf(entries) && AllowlistOf(entries)[key] == Only(ColumnSet(entries[i].columns))
  {
    hide ColumnSet;
    var n := |entries| - 1;
    if i < n {
      ListedIsFound(entries[..n], i);
      assert ("public" + "." + entries[n].table)[7..] == entries[n].table;
      assert ("public" + "." + entries[i].table)[7..] == entries[i].table;
    }
  }

  function Publishers(): Listed {
    Listed("publishers", ["id", "name", "public_key", "created_at", "revoked_at"])
  }

  function Packages(): Listed {
    Listed("packages", ["id", "name", "description", "repository_url", "created_at"])
  }

  function PackageVersions(): Listed {
    Listed("package_versions", ["id", "package_id", "version", "tree_digest", "tarball_sha256", "proof_digest", "coverage_pct",
                                "publisher_id", "published_at", "yanked"])
  }

  function Attestations(): Listed {
    Listed("attestations", ["id", "package_version_id", "kind", "digest", "signature", "created_at"])
  }

  function Yanks(): Listed {
    Listed("yanks", ["id", "package_version_id", "reason", "yanked_by", "yanked_at"])
  }

  function Blocklist(): Listed {
    Listed("blocklist", ["id", "package_name", "tree_digest", "reason", "created_at"])
  }

  function SchemaMigrations(): Listed {
    Listed("schema_migrations", ["version", "checksum", "applied_at"])
  }

  function AgentRuns(): Listed {
    Listed("agent_runs", ["id", "run_id", "agent_id", "publisher_id", "created_at", "started_at", "status",
                          "briefing_hash", "completed_at", "output"])
  }

  function AgentRunEvents(): Listed {
    Listed("agent_run_events", ["run_id", "seq", "event_type", "payload"])
  }

  function ControlPlaneState(): Listed {
    Listed("control_plane_state", ["id", "payload", "updated_at"])
  }

  function ControlPlaneReports(): Listed {
    Listed("control_plane_reports", ["id", "briefing_hash", "generated_at", "is_latest", "payload"])
  }

  function InterventionsSnapshots(): Listed {
    Listed("interventions_snapshots", ["id", "briefing_hash", "generated_at", "items"])
  }

  function BriefingSnapshots(): Listed {
    Listed("briefing_snapshots", ["briefing_hash", "generated_at", "payload"])
  }

  function HeapPlanSnapshots(): Listed {
    Listed("heap_plan_snapshots", ["briefing_hash", "generated_at", "payload"])
  }

  function QueuedAgentTasks(): Listed {
    Listed("queued_agent_tasks", ["briefing_hash", "fingerprint", "agent_id", "reason", "payload"])
  }

  function RepoWorkflowRollouts(): Listed {
    Listed("repo_workflow_rollouts", ["run_id", "repo", "pr_url", "install_ok", "created_at"])
  }

  lemma Names1()
    ensures CleanName("publishers") && CleanName("id") && CleanName("name")
    ensures CleanName("public_key") && CleanName("created_at")
  {
  }

  lemma Names2()
    ensures CleanName("revoked_at") && CleanName("packages") && CleanName("description")
    ensures CleanName("repository_url") && CleanName("package_versions")
  {
  }

  lemma Names3()
    ensures CleanName("package_id") && CleanName("version") && CleanName("tree_digest")
    ensures CleanName("tarball_sha256") && CleanName("proof_digest")
  {
  }

  lemma Names4()
    ensures CleanName("coverage_pct") && CleanName("publisher_id") && CleanName("published_at")
    ensures CleanName("yanked") && CleanName("attestations")
  {
  }

  lemma Names5()
    ensures CleanName("package_version_id") && CleanName("kind") && CleanName("digest")
    ensures CleanName("signature") && CleanName("yanks")
  {
  }

  lemma Names6()
    ensures CleanName("reason") && CleanName("yanked_by") && CleanName("yanked_at")
    ensures CleanName("blocklist") && CleanName("package_name")
  {
  }

  lemma Names7()
    ensures CleanName("schema_migrations") && CleanName("checksum") && CleanName("applied_at")
    ensures CleanName("agent_runs") && CleanName("run_id")
  {
  }

  lemma Names8()
    ensures CleanName("agent_id") && CleanName("started_at") && CleanName("status")
    ensures CleanName("briefing_hash") && CleanName("completed_at")
  {
  }

  lemma Names9()
    ensures CleanName("output") && CleanName("agent_run_events") && CleanName("seq")
    ensures CleanName("event_type") && CleanName("payload")
  {
  }

  lemma Names10()
    ensures CleanName("control_plane_state") && CleanName("updated_at") && CleanName("control_plane_reports")
    ensures CleanName("generated_at") && CleanName("is_latest")
  {
  }

  lemma Names11()
    ensures CleanName("interventions_snapshots") && CleanName("items") && CleanName("briefing_snapshots")
    ensures CleanName("heap_plan_snapshots") && CleanName("queued_agent_tasks")
  {
  }

  lemma Names12()
    ensures CleanName("fingerprint") && CleanName("repo_workflow_rollouts") && CleanName("repo")
    ensures CleanName("pr_url") && CleanName("install_ok")
  {
  }

  lemma PublishingIsClean()
    ensures CleanListed(Publishers()) && CleanListed(Packages())
    ensures CleanListed(PackageVersions()) && CleanListed(Attestations())
  {
    hide CleanName;
    Names1();
    Names2();
    Names3();
    Names4();
    Names5();
  }

  lemma RegistryIsClean()
    ensures CleanListed(Yanks()) && CleanListed(Blocklist())
    ensures CleanListed(SchemaMigrations())
  {
    hide CleanName;
    Names1();
    Names3();
    Names5();
    Names6();
    Names7();
  }

  lemma RunsAreClean()
    ensures CleanListed(AgentRuns()) && CleanListed(AgentRunEvents())
    ensures CleanListed(ControlPlaneState())
  {
    hide CleanName;
    Names1();
    Names4();
    Names7();
    Names8();
    Names9();
    Names10();
  }

  lemma ReportsAreClean()
    ensures CleanListed(ControlPlaneReports()) && CleanListed(InterventionsSnapshots())
    ensures CleanListed(BriefingSnapshots())
  {
    hide CleanName;
    Names1();
    Names8();
    Names9();
    Names10();
    Names11();
  }

  lemma TasksAreClean()
    ensures CleanListed(HeapPlanSnapshots()) && CleanListed(QueuedAgentTasks())
    ensures CleanListed(RepoWorkflowRollouts())
  {
    hide CleanName;
    Names1();
    Names6();
    Names7();
    Names8();
    Names9();
    Names10();
    Names11();
    Names12();
  }

  function Shipped(): seq<Listed> {
    [Publishers(), Packages(), PackageVersions(), Attestations(), Yanks(),
     Blocklist(), SchemaMigrations(), AgentRuns(), AgentRunEvents(),
     ControlPlaneState(), ControlPlaneReports(), InterventionsSnapshots(), BriefingSnapshots(),
     HeapPlanSnapshots(), QueuedAgentTasks(), RepoWorkflowRollouts()]
  }

  function ShippedAllowlist(): Allowlist {
    AllowlistOf(Shipped())
  }

  /** The hypothesis of the pipeline theorems holds of the shipped allowlist. */
  lemma ShippedAllowlistIsClean()
    ensures CleanAllowlist(ShippedAllowlist())
  {
    hide Publishers, Packages, PackageVersions, Attestations, Yanks, Blocklist, SchemaMigrations, AgentRuns,
         AgentRunEvents, ControlPlaneState, ControlPlaneReports, InterventionsSnapshots, BriefingSnapshots, HeapPlanSnapshots, QueuedAgentTasks, RepoWorkflowRollouts,
         CleanListed, AllowlistOf;
    PublishingIsClean();
    RegistryIsClean();
    RunsAreClean();
    ReportsAreClean();
    TasksAreClean();
    AllowlistOfClean(Shipped());
  }

  /** It lists what the inputs of the counterexamples name. */
  lemma ShippedLookups()
    ensures var cat := ShippedAllowlist();
            && "public" + "." + "publishers" in cat && cat["public" + "." + "publishers"].Only?
            && {"id", "name"} <= cat["public" + "." + "publishers"].columns
    ensures var cat := ShippedAllowlist();
            && "public" + "." + "agent_runs" in cat && cat["public" + "." + "agent_runs"].Only?
            && "id" in cat["public" + "." + "agent_runs"].columns
  {
    hide AllowlistOf, CleanListed;
    var all := Shipped();
    ListedIsFound(all, 0);
    ListedIsFound(all, 7);
    assert Publishers().columns[0] == "id" && Publishers().columns[1] == "name" && AgentRuns().columns[0] == "id";
  }
}
