/**
 * Deploy-time checks over the replication configuration: detection of replication loops
 * between (bucket, prefix) rules, and the grouping of rules by source region that decides
 * which regional stacks are deployed.
 */
module ConfigUtils {
  import opened Wrappers
  import opened Records
  import opened DynamoDbUtils

  // ---------------------------------------------------------------------------
  // The replication graph
  // ---------------------------------------------------------------------------

  /** A node of the replication graph: a rule's source bucket and its prefix filter. */
  type Node = (string, string)

  /** Each node's outgoing edges: the destination buckets its rules replicate to. */
  type Graph = map<Node, set<string>>

  /** `(source['bucket'], source.get('prefix_filter', ''))`, with a null prefix read as ''. */
  function SourceKey(r: ReplicationRule): Node {
    (r.source.bucket, PrefixText(r.source.prefixFilter))
  }

  /** The buckets a rule's destinations name; None for the KeyError of a destination without one. */
  function DestBuckets(ds: seq<Destination>): (r: Option<set<string>>)
    ensures r.Some? <==> forall j :: 0 <= j < |ds| ==> ds[j].bucket.Some?
  {
    if |ds| == 0 then Some({})
    else
      var init := DestBuckets(ds[..|ds| - 1]);
      var last := ds[|ds| - 1];
      if init.None? || last.bucket.None? then None else Some(init.value + {last.bucket.value})
  }

  /** A bucket is a target of a destination list exactly when one of its destinations names it. */
  lemma {:induction false} DestBucketsMembership(ds: seq<Destination>, b: string)
    requires DestBuckets(ds).Some?
    ensures b in DestBuckets(ds).value <==> exists j :: 0 <= j < |ds| && ds[j].bucket == Some(b)
    decreases |ds|
  {
    if |ds| > 0 {
      var init := ds[..|ds| - 1];
      DestBucketsMembership(init, b);
      if b in DestBuckets(ds).value && b !in DestBuckets(init).value {
        assert ds[|ds| - 1].bucket == Some(b);
      }
      if exists j :: 0 <= j < |ds| && ds[j].bucket == Some(b) {
        var j :| 0 <= j < |ds| && ds[j].bucket == Some(b);
        if j < |init| {
          assert init[j] == ds[j];
        }
      }
    }
  }

  /** The targets recorded for a node so far; none before its first rule. */
  function Targets(g: Graph, n: Node): set<string> {
    if n in g then g[n] else {}
  }

  /** The graph the first loop builds: one node per distinct source key, edges accumulated over rules. */
  function BuildGraph(rules: seq<ReplicationRule>): (g: Option<Graph>)
    ensures g.Some? <==> forall i :: 0 <= i < |rules| ==> DestBuckets(rules[i].destinations).Some?
  {
    if |rules| == 0 then Some(map[])
    else
      var last := rules[|rules| - 1];
      var init := BuildGraph(rules[..|rules| - 1]);
      var ds := DestBuckets(last.destinations);
      if init.None? || ds.None? then None
      else Some(init.value[SourceKey(last) := Targets(init.value, SourceKey(last)) + ds.value])
  }

  /** `bucket in graph[node]`, false when the node has no rule. */
  predicate Edge(g: Graph, n: Node, bucket: string) {
    n in g && bucket in g[n]
  }

  /** Some rule with source key `n` has a destination in `bucket`. */
  ghost predicate RuleEdge(rules: seq<ReplicationRule>, n: Node, bucket: string) {
    exists i, j :: 0 <= i < |rules| && 0 <= j < |rules[i].destinations| &&
                   SourceKey(rules[i]) == n && rules[i].destinations[j].bucket == Some(bucket)
  }

  /** The graph's nodes are exactly the rules' source keys. */
  lemma {:induction false} GraphNodes(rules: seq<ReplicationRule>, n: Node)
    requires BuildGraph(rules).Some?
    ensures n in BuildGraph(rules).value <==> exists i :: 0 <= i < |rules| && SourceKey(rules[i]) == n
    decreases |rules|
  {
    if |rules| > 0 {
      GraphSnoc(rules, n, "");
      GraphNodes(rules[..|rules| - 1], n);
      SourceKeySnoc(rules, rules[..|rules| - 1], rules[|rules| - 1], n);
    }
  }

  /** The graph after a rule: the graph before it, with the rule's destination buckets added to its node. */
  lemma GraphSnoc(rules: seq<ReplicationRule>, n: Node, b: string)
    requires |rules| > 0 && BuildGraph(rules).Some?
    ensures BuildGraph(rules[..|rules| - 1]).Some? && DestBuckets(rules[|rules| - 1].destinations).Some?
    ensures n in BuildGraph(rules).value <==>
            n in BuildGraph(rules[..|rules| - 1]).value || n == SourceKey(rules[|rules| - 1])
    ensures Edge(BuildGraph(rules).value, n, b) <==>
            Edge(BuildGraph(rules[..|rules| - 1]).value, n, b) ||
            (n == SourceKey(rules[|rules| - 1]) && b in DestBuckets(rules[|rules| - 1].destinations).value)
  {
  }

  lemma SourceKeySnoc(rules: seq<ReplicationRule>, init: seq<ReplicationRule>, last: ReplicationRule, n: Node)
    requires rules == init + [last]
    ensures (exists i :: 0 <= i < |rules| && SourceKey(rules[i]) == n) <==>
            (exists i :: 0 <= i < |init| && SourceKey(init[i]) == n) || SourceKey(last) == n
  {
    if exists i :: 0 <= i < |rules| && SourceKey(rules[i]) == n {
      var i :| 0 <= i < |rules| && SourceKey(rules[i]) == n;
      if i < |init| {
        assert init[i] == rules[i];
      }
    }
    if exists i :: 0 <= i < |init| && SourceKey(init[i]) == n {
      var i :| 0 <= i < |init| && SourceKey(init[i]) == n;
      assert rules[i] == init[i];
    }
    assert rules[|init|] == last;
  }

  /** A node has an edge to a bucket exactly when a rule with that source key has a destination there. */
  lemma {:induction false} GraphEdges(rules: seq<ReplicationRule>, n: Node, b: string)
    requires BuildGraph(rules).Some?
    ensures Edge(BuildGraph(rules).value, n, b) <==> RuleEdge(rules, n, b)
    decreases |rules|
  {
    if |rules| > 0 {
      var last := rules[|rules| - 1];
      GraphSnoc(rules, n, b);
      GraphEdges(rules[..|rules| - 1], n, b);
      DestBucketsMembership(last.destinations, b);
      RuleEdgeSnoc(rules, rules[..|rules| - 1], last, n, b);
    }
  }

  /** The rule edges after a rule: those before it, and the rule's own destinations. */
  lemma RuleEdgeSnoc(rules: seq<ReplicationRule>, init: seq<ReplicationRule>, last: ReplicationRule, n: Node, b: string)
    requires rules == init + [last]
    ensures RuleEdge(rules, n, b) <==>
            RuleEdge(init, n, b) ||
            (SourceKey(last) == n && exists j :: 0 <= j < |last.destinations| && last.destinations[j].bucket == Some(b))
  {
    var k := |init|;
    assert rules[k] == last;
    if RuleEdge(rules, n, b) {
      var i, j :| 0 <= i < |rules| && 0 <= j < |rules[i].destinations| &&
                  SourceKey(rules[i]) == n && rules[i].destinations[j].bucket == Some(b);
      if i < k {
        assert init[i] == rules[i];
        assert RuleEdge(init, n, b);
      }
    }
    if RuleEdge(init, n, b) {
      var i, j :| 0 <= i < |init| && 0 <= j < |init[i].destinations| &&
                  SourceKey(init[i]) == n && init[i].destinations[j].bucket == Some(b);
      assert rules[i] == init[i];
    }
    if SourceKey(last) == n && exists j :: 0 <= j < |last.destinations| && last.destinations[j].bucket == Some(b) {
      var j :| 0 <= j < |last.destinations| && last.destinations[j].bucket == Some(b);
      assert RuleEdge(rules, n, b);
    }
  }

  // ---------------------------------------------------------------------------
  // Loops
  // ---------------------------------------------------------------------------

  /**
   * `forms_loop`: no loop unless `a` replicates to b's bucket and `b` to a's bucket; then equal
   * prefixes loop, two different non-empty prefixes do not, and an empty prefix always does.
   */
  function FormsLoop(g: Graph, a: Node, b: Node): (r: bool)
    ensures r <==> Edge(g, a, b.0) && Edge(g, b, a.0) && (a.1 == b.1 || a.1 == "" || b.1 == "")
  {
    if !Edge(g, a, b.0) then false
    else if !Edge(g, b, a.0) then false
    else if a.1 == b.1 then true
    else if a.1 != "" && b.1 != "" && a.1 != b.1 then false
    else true
  }

  /** Some other node forms a loop with `a`. */
  ghost predicate LoopFrom(g: Graph, a: Node) {
    exists b :: b in g && b != a && FormsLoop(g, a, b)
  }

  /** Some node of the graph forms a loop with another one. */
  ghost predicate HasLoop(g: Graph) {
    exists a :: a in g && LoopFrom(g, a)
  }

  /** What `detect_replication_loops` answers for a rule list; None for a destination without a bucket. */
  ghost function LoopVerdict(rules: seq<ReplicationRule>): Option<bool> {
    var g := BuildGraph(rules);
    if g.None? then None else Some(HasLoop(g.value))
  }

  /** Whether two nodes loop does not depend on the order they are compared in. */
  lemma FormsLoopSymmetric(g: Graph, a: Node, b: Node)
    ensures FormsLoop(g, a, b) == FormsLoop(g, b, a)
  {
  }

  /** Two different non-empty prefixes never form a loop, whatever the edges. */
  lemma DifferentPrefixesNeverLoop(g: Graph, a: Node, b: Node)
    requires a.1 != "" && b.1 != "" && a.1 != b.1
    ensures !FormsLoop(g, a, b)
  {
  }

  /**
   * In rule terms: a loop is reported exactly when two rules with different source keys
   * replicate into each other's buckets and their prefixes are equal or one of them is empty.
   */
  lemma LoopVerdictOfRules(rules: seq<ReplicationRule>, a: Node, b: Node)
    requires BuildGraph(rules).Some?
    requires a != b
    requires RuleEdge(rules, a, b.0) && RuleEdge(rules, b, a.0)
    requires a.1 == b.1 || a.1 == "" || b.1 == ""
    ensures LoopVerdict(rules) == Some(true)
  {
    var g := BuildGraph(rules).value;
    GraphEdges(rules, a, b.0);
    GraphEdges(rules, b, a.0);
    assert FormsLoop(g, a, b);
    assert LoopFrom(g, a);
  }

  /** Conversely, a reported loop comes from two such rules. */
  lemma LoopVerdictHasWitness(rules: seq<ReplicationRule>)
    requires LoopVerdict(rules) == Some(true)
    ensures exists a: Node, b: Node :: a != b && RuleEdge(rules, a, b.0) && RuleEdge(rules, b, a.0) &&
                                       (a.1 == b.1 || a.1 == "" || b.1 == "")
  {
    var g := BuildGraph(rules).value;
    var a :| a in g && LoopFrom(g, a);
    var b :| b in g && b != a && FormsLoop(g, a, b);
    GraphEdges(rules, a, b.0);
    GraphEdges(rules, b, a.0);
  }

  // ---------------------------------------------------------------------------
  // The loop search, as written
  // ---------------------------------------------------------------------------

  /** `bucket_rules`: the buckets in first-rule order, and each bucket's prefixes, one per rule. */
  datatype BucketRules = BucketRules(order: seq<string>, prefixes: map<string, seq<string>>)

  function BucketRulesOf(rules: seq<ReplicationRule>): BucketRules {
    if |rules| == 0 then BucketRules([], map[])
    else
      var br := BucketRulesOf(rules[..|rules| - 1]);
      var key := SourceKey(rules[|rules| - 1]);
      if key.0 in br.prefixes then BucketRules(br.order, br.prefixes[key.0 := br.prefixes[key.0] + [key.1]])
      else BucketRules(br.order + [key.0], br.prefixes[key.0 := [key.1]])
  }

  /** The pairs the nested loops enumerate are exactly the graph's nodes. */
  ghost predicate Enumerates(g: Graph, br: BucketRules) {
    (forall b :: b in br.prefixes <==> b in br.order) &&
    (forall n: Node :: n in g <==> n.0 in br.prefixes && n.1 in br.prefixes[n.0])
  }

  lemma {:induction false} BucketRulesEnumerateGraph(rules: seq<ReplicationRule>)
    requires BuildGraph(rules).Some?
    ensures Enumerates(BuildGraph(rules).value, BucketRulesOf(rules))
    decreases |rules|
  {
    if |rules| > 0 {
      BucketRulesEnumerateGraph(rules[..|rules| - 1]);
    }
  }

  /** The innermost loop: bucket_b's prefixes, skipping the node `a` itself. */
  method FindPartnerInBucket(graph: Graph, a: Node, bucketB: string, prefixesB: seq<string>) returns (found: bool)
    ensures found <==> exists l :: 0 <= l < |prefixesB| && (bucketB, prefixesB[l]) != a &&
                                   FormsLoop(graph, a, (bucketB, prefixesB[l]))
  {
    var l := 0;
    while l < |prefixesB|
      invariant 0 <= l <= |prefixesB|
      invariant forall m :: 0 <= m < l ==> (bucketB, prefixesB[m]) == a || !FormsLoop(graph, a, (bucketB, prefixesB[m]))
    {
      var prefixB := prefixesB[l];
      if !(a.0 == bucketB && a.1 == prefixB) {
        if FormsLoop(graph, a, (bucketB, prefixB)) {
          assert (bucketB, prefixesB[l]) != a && FormsLoop(graph, a, (bucketB, prefixesB[l]));
          return true;
        }
      }
      l := l + 1;
    }
    return false;
  }

  /** The two inner loops: every other enumerated node, compared with `a`. */
  method FindPartner(graph: Graph, br: BucketRules, a: Node) returns (found: bool)
    requires Enumerates(graph, br)
    ensures found <==> LoopFrom(graph, a)
  {
    found := false;
    var k := 0;
    while k < |br.order|
      invariant 0 <= k <= |br.order|
      invariant forall b: Node :: b in graph && b.0 in br.order[..k] ==> b == a || !FormsLoop(graph, a, b)
    {
      var bucketB := br.order[k];
      var prefixesB := br.prefixes[bucketB];
      found := FindPartnerInBucket(graph, a, bucketB, prefixesB);
      if found {
        ghost var l :| 0 <= l < |prefixesB| && (bucketB, prefixesB[l]) != a && FormsLoop(graph, a, (bucketB, prefixesB[l]));
        assert (bucketB, prefixesB[l]) in graph;
        return;
      }
      forall b: Node | b in graph && b.0 in br.order[..k + 1]
        ensures b == a || !FormsLoop(graph, a, b)
      {
        if b.0 !in br.order[..k] {
          assert b.0 == bucketB;
          var l :| 0 <= l < |prefixesB| && prefixesB[l] == b.1;
          assert b == (bucketB, prefixesB[l]);
        }
      }
      k := k + 1;
    }
    assert br.order[..k] == br.order;
  }

  /** The second loop: each of bucket_a's prefixes in turn as the node `a`. */
  method FindLoopInBucket(graph: Graph, br: BucketRules, bucketA: string, prefixesA: seq<string>) returns (found: bool)
    requires Enumerates(graph, br)
    ensures found <==> exists j :: 0 <= j < |prefixesA| && LoopFrom(graph, (bucketA, prefixesA[j]))
  {
    var j := 0;
    while j < |prefixesA|
      invariant 0 <= j <= |prefixesA|
      invariant forall m :: 0 <= m < j ==> !LoopFrom(graph, (bucketA, prefixesA[m]))
    {
      found := FindPartner(graph, br, (bucketA, prefixesA[j]));
      if found {
        assert LoopFrom(graph, (bucketA, prefixesA[j]));
        return;
      }
      j := j + 1;
    }
    return false;
  }

  /** The outer loop over `bucket_rules.items()`: true at the first pair that forms a loop. */
  method FindLoop(graph: Graph, br: BucketRules) returns (found: bool)
    requires Enumerates(graph, br)
    ensures found <==> HasLoop(graph)
  {
    found := false;
    var i := 0;
    while i < |br.order|
      invariant 0 <= i <= |br.order|
      invariant forall a: Node :: a in graph && a.0 in br.order[..i] ==> !LoopFrom(graph, a)
    {
      var bucketA := br.order[i];
      var prefixesA := br.prefixes[bucketA];
      found := FindLoopInBucket(graph, br, bucketA, prefixesA);
      if found {
        ghost var j :| 0 <= j < |prefixesA| && LoopFrom(graph, (bucketA, prefixesA[j]));
        assert (bucketA, prefixesA[j]) in graph;
        return;
      }
      forall a: Node | a in graph && a.0 in br.order[..i + 1]
        ensures !LoopFrom(graph, a)
      {
        if a.0 !in br.order[..i] {
          assert a.0 == bucketA;
          var j :| 0 <= j < |prefixesA| && prefixesA[j] == a.1;
          assert a == (bucketA, prefixesA[j]);
        }
      }
      i := i + 1;
    }
    assert br.order[..i] == br.order;
  }

  /** Adds a rule's destination buckets to its node's targets, one destination at a time. */
  method AddEdges(graph: Graph, key: Node, ds: seq<Destination>) returns (r: Option<Graph>)
    requires key in graph
    ensures DestBuckets(ds).None? ==> r.None?
    ensures DestBuckets(ds).Some? ==> r == Some(graph[key := graph[key] + DestBuckets(ds).value])
  {
    var g := graph;
    var j := 0;
    assert ds[..0] == [];
    assert graph[key] + {} == graph[key];
    assert graph[key := graph[key]] == graph;
    while j < |ds|
      invariant 0 <= j <= |ds|
      invariant DestBuckets(ds[..j]).Some?
      invariant g == graph[key := graph[key] + DestBuckets(ds[..j]).value]
    {
      var dest := ds[j];
      assert ds[..j + 1][..j] == ds[..j] && ds[..j + 1][j] == dest;
      if dest.bucket.None? {
        return None;
      }
      ghost var next := DestBuckets(ds[..j + 1]).value;
      assert next == DestBuckets(ds[..j]).value + {dest.bucket.value};
      assert g[key] + {dest.bucket.value} == graph[key] + next;
      g := g[key := g[key] + {dest.bucket.value}];
      assert g == graph[key := graph[key] + next];
      j := j + 1;
    }
    assert ds[..j] == ds;
    r := Some(g);
  }

  /** One rule of the first loop: its prefix is appended to its bucket's list, opened (at the end of the order) when new. */
  lemma BucketRulesStep(rules: seq<ReplicationRule>, i: nat, order: seq<string>, prefixes: map<string, seq<string>>)
    requires i < |rules| && BucketRulesOf(rules[..i]) == BucketRules(order, prefixes)
    ensures var key := SourceKey(rules[i]);
            var open := (if key.0 in prefixes then prefixes else prefixes[key.0 := []]);
            var keys := (if key.0 in prefixes then order else order + [key.0]);
            BucketRulesOf(rules[..i + 1]) == BucketRules(keys, open[key.0 := open[key.0] + [key.1]])
  {
    assert rules[..i + 1][..i] == rules[..i];
    assert rules[..i + 1][i] == rules[i];
    var key := SourceKey(rules[i]);
    if key.0 !in prefixes {
      assert [] + [key.1] == [key.1];
      assert prefixes[key.0 := []][key.0 := [key.1]] == prefixes[key.0 := [key.1]];
    }
  }

  /** One rule of the first loop: its destination buckets are added to its node. */
  lemma GraphStep(rules: seq<ReplicationRule>, i: nat, graph: Graph)
    requires i < |rules| && BuildGraph(rules[..i]) == Some(graph) && DestBuckets(rules[i].destinations).Some?
    ensures BuildGraph(rules[..i + 1]) ==
            Some(graph[SourceKey(rules[i]) := Targets(graph, SourceKey(rules[i])) + DestBuckets(rules[i].destinations).value])
  {
    assert rules[..i + 1][..i] == rules[..i];
    assert rules[..i + 1][i] == rules[i];
  }

  /** A destination without a bucket makes the whole graph fail. */
  lemma MissingBucketFails(rules: seq<ReplicationRule>, i: nat)
    requires i < |rules| && DestBuckets(rules[i].destinations).None?
    ensures BuildGraph(rules).None?
  {
  }

  /**
   * The body of the first loop of `detect_replication_loops`: the rule's node and bucket list
   * are opened when new, its prefix appended to the bucket's list and its destination buckets
   * added to the node; a destination without a bucket stops the pass.
   */
  method AddRuleToGraph(rule: ReplicationRule, graph: Graph, order: seq<string>, bucketRules: map<string, seq<string>>)
    returns (graph2: Graph, order2: seq<string>, bucketRules2: map<string, seq<string>>, added: bool)
    ensures added <==> DestBuckets(rule.destinations).Some?
    ensures added ==>
              var key := SourceKey(rule);
              var open := (if key.0 in bucketRules then bucketRules else bucketRules[key.0 := []]);
              graph2 == graph[key := Targets(graph, key) + DestBuckets(rule.destinations).value] &&
              order2 == (if key.0 in bucketRules then order else order + [key.0]) &&
              bucketRules2 == open[key.0 := open[key.0] + [key.1]]
  {
    var sourceBucket := rule.source.bucket;
    var sourcePrefix := if rule.source.prefixFilter.Given? then rule.source.prefixFilter.s else "";
    var sourceKey := (sourceBucket, sourcePrefix);
    assert sourceKey == SourceKey(rule);
    graph2, order2, bucketRules2 := graph, order, bucketRules;
    if sourceKey !in graph2 {
      graph2 := graph2[sourceKey := {}];
    }
    if sourceBucket !in bucketRules2 {
      bucketRules2 := bucketRules2[sourceBucket := []];
      order2 := order2 + [sourceBucket];
    }
    bucketRules2 := bucketRules2[sourceBucket := bucketRules2[sourceBucket] + [sourcePrefix]];
    var next := AddEdges(graph2, sourceKey, rule.destinations);
    if next.None? {
      return graph, order, bucketRules, false;
    }
    graph2 := next.value;
    added := true;
  }

  /**
   * `detect_replication_loops`: builds the graph and `bucket_rules` in one pass over the rules,
   * then searches every ordered pair of distinct enumerated nodes. `config` is the document's
   * 'replication_configuration' key, absent meaning no rules.
   */
  method DetectReplicationLoops(config: Option<seq<ReplicationRule>>) returns (r: Option<bool>)
    ensures r == LoopVerdict(config.GetOr([]))
  {
    var rules := config.GetOr([]);
    var graph: Graph := map[];
    var order: seq<string> := [];
    var bucketRules: map<string, seq<string>> := map[];
    var i := 0;
    while i < |rules|
      invariant 0 <= i <= |rules|
      invariant BuildGraph(rules[..i]) == Some(graph)
      invariant BucketRulesOf(rules[..i]) == BucketRules(order, bucketRules)
    {
      ghost var graph0, order0, prefixes0 := graph, order, bucketRules;
      var added;
      graph, order, bucketRules, added := AddRuleToGraph(rules[i], graph, order, bucketRules);
      if !added {
        MissingBucketFails(rules, i);
        return None;
      }
      BucketRulesStep(rules, i, order0, prefixes0);
      GraphStep(rules, i, graph0);
      i := i + 1;
    }
    assert rules[..i] == rules;
    BucketRulesEnumerateGraph(rules);
    var found := FindLoop(graph, BucketRules(order, bucketRules));
    r := Some(found);
  }

  // ---------------------------------------------------------------------------
  // The three configurations of the loop-detection script
  // ---------------------------------------------------------------------------

  function Dest(region: string, bucket: string, storageClass: string): Destination {
    Destination(Some(region), Some(bucket), None, Some(storageClass), None)
  }

  function Rule(region: string, bucket: string, prefix: PrefixFilter, dest: Destination): ReplicationRule {
    ReplicationRule(SourceConfig(bucket, region, prefix), [dest])
  }

  /** Oregon 'historic' to Canada, and Canada 'CanadaBackup' back to Oregon. */
  function TwoWayRules(oregonPrefix: PrefixFilter, canadaPrefix: PrefixFilter): seq<ReplicationRule> {
    [Rule("us-west-2", "s3-crc-oregon", oregonPrefix, Dest("ca-central-1", "s3-crc-canada", "GLACIER")),
     Rule("ca-central-1", "s3-crc-canada", canadaPrefix, Dest("us-west-2", "s3-crc-oregon", "STANDARD"))]
  }

  /** The graph of two rules that replicate into each other's buckets. */
  lemma TwoWayGraph(oregonPrefix: PrefixFilter, canadaPrefix: PrefixFilter)
    ensures BuildGraph(TwoWayRules(oregonPrefix, canadaPrefix)) ==
            Some(map[("s3-crc-oregon", PrefixText(oregonPrefix)) := {"s3-crc-canada"},
                     ("s3-crc-canada", PrefixText(canadaPrefix)) := {"s3-crc-oregon"}])
  {
    var rules := TwoWayRules(oregonPrefix, canadaPrefix);
    assert rules[..1][..0] == [];
    DestBucketsSingle(Dest("ca-central-1", "s3-crc-canada", "GLACIER"));
    DestBucketsSingle(Dest("us-west-2", "s3-crc-oregon", "STANDARD"));
    var k1, k2 := ("s3-crc-oregon", PrefixText(oregonPrefix)), ("s3-crc-canada", PrefixText(canadaPrefix));
    var g1: Graph := map[k1 := {} + {"s3-crc-canada"}];
    assert BuildGraph(rules[..1]) == Some(g1);
    assert {} + {"s3-crc-canada"} == {"s3-crc-canada"} && {} + {"s3-crc-oregon"} == {"s3-crc-oregon"};
    assert rules[..2] == rules;
    assert BuildGraph(rules) == Some(g1[k2 := Targets(g1, k2) + {"s3-crc-oregon"}]);
  }

  lemma DestBucketsSingle(d: Destination)
    requires d.bucket.Some?
    ensures DestBuckets([d]) == Some({d.bucket.value})
  {
    assert [d][..0] == [];
    assert {} + {d.bucket.value} == {d.bucket.value};
  }

  /** Different prefixes ('historic' and 'CanadaBackup'): no loop. */
  lemma DifferentPrefixesExample()
    ensures LoopVerdict(TwoWayRules(Given("historic"), Given("CanadaBackup"))) == Some(false)
  {
    var rules := TwoWayRules(Given("historic"), Given("CanadaBackup"));
    TwoWayGraph(Given("historic"), Given("CanadaBackup"));
    var g := BuildGraph(rules).value;
    forall a | a in g
      ensures !LoopFrom(g, a)
    {
      forall b | b in g && b != a
        ensures !FormsLoop(g, a, b)
      {
        DifferentPrefixesNeverLoop(g, a, b);
      }
    }
  }

  /** The same prefix ('shared') on both sides: a loop. */
  lemma SamePrefixExample()
    ensures LoopVerdict(TwoWayRules(Given("shared"), Given("shared"))) == Some(true)
  {
    var rules := TwoWayRules(Given("shared"), Given("shared"));
    TwoWayGraph(Given("shared"), Given("shared"));
    var g := BuildGraph(rules).value;
    var a, b := ("s3-crc-oregon", "shared"), ("s3-crc-canada", "shared");
    assert a in g && b in g && a != b && FormsLoop(g, a, b);
  }

  /** No prefix on the Oregon side against 'CanadaBackup': a loop, since '' covers the whole bucket. */
  lemma EmptyPrefixExample()
    ensures LoopVerdict(TwoWayRules(Absent, Given("CanadaBackup"))) == Some(true)
  {
    var rules := TwoWayRules(Absent, Given("CanadaBackup"));
    TwoWayGraph(Absent, Given("CanadaBackup"));
    var g := BuildGraph(rules).value;
    var a, b := ("s3-crc-oregon", ""), ("s3-crc-canada", "CanadaBackup");
    assert a in g && b in g && a != b && FormsLoop(g, a, b);
  }

  // ---------------------------------------------------------------------------
  // Grouping by source region
  // ---------------------------------------------------------------------------

  /**
   * What `group_configurations_by_source_region` is given: the parsed document, whose
   * 'replication_configuration' key holds the rules, or the rule list itself.
   */
  datatype ConfigInput = Document(replicationConfiguration: seq<ReplicationRule>) | RuleList(rules: seq<ReplicationRule>)

  function RulesOf(c: ConfigInput): seq<ReplicationRule> {
    match c
    case Document(rules) => rules
    case RuleList(rules) => rules
  }

  /** One entry of a region's list: the source bucket, its prefix and the destination regions. */
  datatype SourceEntry = SourceEntry(sourceBucket: string, sourcePrefix: Option<string>, destinations: seq<string>)

  /** `source.get('prefix_filter', '')` kept as is: '' when absent, None when null. */
  function PrefixValue(p: PrefixFilter): Option<string> {
    match p
    case Absent => Some("")
    case Null => None
    case Given(s) => Some(s)
  }

  /** `[dest['region'] for dest in destinations]`; None for the KeyError of a destination without one. */
  function DestRegions(ds: seq<Destination>): (r: Option<seq<string>>)
    ensures r.Some? <==> forall j :: 0 <= j < |ds| ==> ds[j].region.Some?
    ensures r.Some? ==> |r.value| == |ds| && forall j :: 0 <= j < |ds| ==> ds[j].region == Some(r.value[j])
  {
    if |ds| == 0 then Some([])
    else
      var init := DestRegions(ds[..|ds| - 1]);
      var last := ds[|ds| - 1];
      if init.None? || last.region.None? then None else Some(init.value + [last.region.value])
  }

  function EntryOf(rule: ReplicationRule): Option<SourceEntry> {
    var regions := DestRegions(rule.destinations);
    if regions.None? then None
    else Some(SourceEntry(rule.source.bucket, PrefixValue(rule.source.prefixFilter), regions.value))
  }

  predicate Distinct(s: seq<string>) {
    forall i, j :: 0 <= i < j < |s| ==> s[i] != s[j]
  }

  /** The result dictionary: its keys in insertion order, and each region's list. */
  datatype Grouping = Grouping(order: seq<string>, groups: map<string, seq<SourceEntry>>)

  /** The grouping after each rule in turn; None as soon as a destination has no region. */
  function GroupByRegion(rules: seq<ReplicationRule>): (r: Option<Grouping>)
    ensures r.Some? <==> forall i :: 0 <= i < |rules| ==> EntryOf(rules[i]).Some?
    ensures r.Some? ==> (forall k :: k in r.value.groups <==> k in r.value.order) && Distinct(r.value.order)
  {
    if |rules| == 0 then Some(Grouping([], map[]))
    else
      var init := GroupByRegion(rules[..|rules| - 1]);
      var last := rules[|rules| - 1];
      var e := EntryOf(last);
      if init.None? || e.None? then None
      else
        var gr := init.value;
        var region := last.source.region;
        if region in gr.groups then Some(Grouping(gr.order, gr.groups[region := gr.groups[region] + [e.value]]))
        else Some(Grouping(gr.order + [region], gr.groups[region := [e.value]]))
  }

  /** The reference: the entries of the rules from one region, in rule order. */
  function EntriesFor(rules: seq<ReplicationRule>, region: string): seq<SourceEntry>
    requires forall i :: 0 <= i < |rules| ==> EntryOf(rules[i]).Some?
  {
    if |rules| == 0 then []
    else
      var last := rules[|rules| - 1];
      EntriesFor(rules[..|rules| - 1], region) + (if last.source.region == region then [EntryOf(last).value] else [])
  }

  /**
   * A region is a key exactly when some rule comes from it, and its list holds the entries of
   * exactly the rules from that region, in rule order.
   */
  lemma GroupedByRegion(rules: seq<ReplicationRule>, region: string)
    requires GroupByRegion(rules).Some?
    ensures region in GroupByRegion(rules).value.groups <==> exists i :: 0 <= i < |rules| && rules[i].source.region == region
    ensures region in GroupByRegion(rules).value.groups ==>
              GroupByRegion(rules).value.groups[region] == EntriesFor(rules, region)
  {
    GroupedKeys(rules, region);
    GroupedEntries(rules, region);
  }

  lemma {:induction false} GroupedKeys(rules: seq<ReplicationRule>, region: string)
    requires GroupByRegion(rules).Some?
    ensures region in GroupByRegion(rules).value.groups <==> exists i :: 0 <= i < |rules| && rules[i].source.region == region
    decreases |rules|
  {
    if |rules| > 0 {
      var k := |rules| - 1;
      var init := rules[..k];
      KeysSnoc(rules, region);
      GroupedKeys(init, region);
      RegionSnoc(rules, init, rules[k], region);
    }
  }

  /** The keys after a rule: the keys before it, and the rule's region. */
  lemma KeysSnoc(rules: seq<ReplicationRule>, region: string)
    requires |rules| > 0 && GroupByRegion(rules).Some?
    ensures GroupByRegion(rules[..|rules| - 1]).Some?
    ensures region in GroupByRegion(rules).value.groups <==>
            region in GroupByRegion(rules[..|rules| - 1]).value.groups || rules[|rules| - 1].source.region == region
  {
  }

  lemma RegionSnoc(rules: seq<ReplicationRule>, init: seq<ReplicationRule>, last: ReplicationRule, region: string)
    requires rules == init + [last]
    ensures (exists i :: 0 <= i < |rules| && rules[i].source.region == region) <==>
            (exists i :: 0 <= i < |init| && init[i].source.region == region) || last.source.region == region
  {
    if exists i :: 0 <= i < |rules| && rules[i].source.region == region {
      var i :| 0 <= i < |rules| && rules[i].source.region == region;
      if i < |init| {
        assert init[i] == rules[i];
      }
    }
    if exists i :: 0 <= i < |init| && init[i].source.region == region {
      var i :| 0 <= i < |init| && init[i].source.region == region;
      assert rules[i] == init[i];
    }
    assert rules[|init|] == last;
  }

  lemma {:induction false} GroupedEntries(rules: seq<ReplicationRule>, region: string)
    requires GroupByRegion(rules).Some?
    ensures region in GroupByRegion(rules).value.groups ==>
              GroupByRegion(rules).value.groups[region] == EntriesFor(rules, region)
    decreases |rules|
  {
    if |rules| > 0 {
      var init := rules[..|rules| - 1];
      assert forall i :: 0 <= i < |init| ==> init[i] == rules[i];
      GroupedEntries(init, region);
      if region !in GroupByRegion(init).value.groups {
        GroupedKeys(init, region);
        EntriesForAbsent(init, region);
      }
    }
  }

  /** No rule from a region: no entries for it. */
  lemma {:induction false} EntriesForAbsent(rules: seq<ReplicationRule>, region: string)
    requires forall i :: 0 <= i < |rules| ==> EntryOf(rules[i]).Some?
    requires forall i :: 0 <= i < |rules| ==> rules[i].source.region != region
    ensures EntriesFor(rules, region) == []
    decreases |rules|
  {
    if |rules| > 0 {
      EntriesForAbsent(rules[..|rules| - 1], region);
    }
  }

  /** The total length of the lists under the given keys. */
  function SumSizes(order: seq<string>, groups: map<string, seq<SourceEntry>>): nat {
    if |order| == 0 then 0
    else
      var last := order[|order| - 1];
      SumSizes(order[..|order| - 1], groups) + (if last in groups then |groups[last]| else 0)
  }

  lemma {:induction false} SumSizesFresh(order: seq<string>, groups: map<string, seq<SourceEntry>>, key: string, s: seq<SourceEntry>)
    requires key !in order
    ensures SumSizes(order, groups[key := s]) == SumSizes(order, groups)
    decreases |order|
  {
    if |order| > 0 {
      SumSizesFresh(order[..|order| - 1], groups, key, s);
    }
  }

  lemma {:induction false} SumSizesGrow(order: seq<string>, groups: map<string, seq<SourceEntry>>, key: string, s: seq<SourceEntry>)
    requires Distinct(order) && key in order && key in groups
    ensures SumSizes(order, groups[key := s]) == SumSizes(order, groups) - |groups[key]| + |s|
    decreases |order|
  {
    var init := order[..|order| - 1];
    if order[|order| - 1] == key {
      assert key !in init;
      SumSizesFresh(init, groups, key, s);
    } else {
      SumSizesGrow(init, groups, key, s);
    }
  }

  /** Every rule lands in exactly one list: the lists hold as many entries as there are rules. */
  lemma {:induction false} GroupingCountsEveryRule(rules: seq<ReplicationRule>)
    requires GroupByRegion(rules).Some?
    ensures SumSizes(GroupByRegion(rules).value.order, GroupByRegion(rules).value.groups) == |rules|
    decreases |rules|
  {
    if |rules| > 0 {
      var init := rules[..|rules| - 1];
      GroupingCountsEveryRule(init);
      var gr := GroupByRegion(init).value;
      var region := rules[|rules| - 1].source.region;
      var e := EntryOf(rules[|rules| - 1]).value;
      if region in gr.groups {
        SumSizesGrow(gr.order, gr.groups, region, gr.groups[region] + [e]);
      } else {
        var order := gr.order + [region];
        assert order[..|order| - 1] == gr.order;
        SumSizesFresh(gr.order, gr.groups, region, [e]);
      }
    }
  }

  /** One rule of the loop: its region's list is opened (at the end of the order) when new, then the entry appended. */
  lemma RegionStep(rules: seq<ReplicationRule>, i: nat, order: seq<string>, groups: map<string, seq<SourceEntry>>)
    requires i < |rules| && GroupByRegion(rules[..i]) == Some(Grouping(order, groups)) && EntryOf(rules[i]).Some?
    ensures var region := rules[i].source.region;
            var open := (if region in groups then groups else groups[region := []]);
            var keys := (if region in groups then order else order + [region]);
            GroupByRegion(rules[..i + 1]) == Some(Grouping(keys, open[region := open[region] + [EntryOf(rules[i]).value]]))
  {
    assert rules[..i + 1][..i] == rules[..i];
    assert rules[..i + 1][i] == rules[i];
    var region := rules[i].source.region;
    var e := EntryOf(rules[i]).value;
    if region !in groups {
      assert [] + [e] == [e];
      assert groups[region := []][region := [e]] == groups[region := [e]];
    }
  }

  /** A rule whose destinations lack a region makes the whole grouping fail. */
  lemma MissingRegionFails(rules: seq<ReplicationRule>, i: nat)
    requires i < |rules| && EntryOf(rules[i]).None?
    ensures GroupByRegion(rules).None?
  {
  }

  /**
   * The loop body of `group_configurations_by_source_region`: without a region for every
   * destination nothing is added; otherwise the rule's region list is opened when new and
   * the rule's entry appended to it.
   */
  method AddRule(item: ReplicationRule, order: seq<string>, result: map<string, seq<SourceEntry>>)
    returns (order2: seq<string>, result2: map<string, seq<SourceEntry>>, added: bool)
    ensures added <==> EntryOf(item).Some?
    ensures added ==>
              var region := item.source.region;
              var open := (if region in result then result else result[region := []]);
              order2 == (if region in result then order else order + [region]) &&
              result2 == open[region := open[region] + [EntryOf(item).value]]
  {
    var sourceRegion := item.source.region;
    var sourceBucket := item.source.bucket;
    var sourcePrefix := PrefixValue(item.source.prefixFilter);
    var destinationRegions := DestRegions(item.destinations);
    if destinationRegions.None? {
      return order, result, false;
    }
    order2, result2 := order, result;
    if sourceRegion !in result2 {
      result2 := result2[sourceRegion := []];
      order2 := order2 + [sourceRegion];
    }
    var sourceConfig := SourceEntry(sourceBucket, sourcePrefix, destinationRegions.value);
    result2 := result2[sourceRegion := result2[sourceRegion] + [sourceConfig]];
    added := true;
  }

  /** `group_configurations_by_source_region` on an already loaded configuration. */
  method GroupConfigurationsBySourceRegion(config: ConfigInput) returns (r: Option<Grouping>)
    ensures r == GroupByRegion(RulesOf(config))
  {
    var replicationConfig := if config.Document? then config.replicationConfiguration else config.rules;
    var order: seq<string> := [];
    var result: map<string, seq<SourceEntry>> := map[];
    var i := 0;
    while i < |replicationConfig|
      invariant 0 <= i <= |replicationConfig|
      invariant GroupByRegion(replicationConfig[..i]) == Some(Grouping(order, result))
    {
      ghost var order0, result0 := order, result;
      var added;
      order, result, added := AddRule(replicationConfig[i], order, result);
      if !added {
        MissingRegionFails(replicationConfig, i);
        return None;
      }
      RegionStep(replicationConfig, i, order0, result0);
      i := i + 1;
    }
    assert replicationConfig[..i] == replicationConfig;
    r := Some(Grouping(order, result));
  }
}
