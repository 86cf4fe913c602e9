/**
 * Deploy-time seeding of the replication-parameters table: one item per replication
 * rule, named after the stack, the source bucket and the prefix filter, holding the
 * rule's destinations in DynamoDB attribute-value form.
 */
module DynamoDbUtils {
  import opened Wrappers
  import opened Records

  /** A stored parameters item: attribute name to attribute value. */
  type ParamItem = map<string, AttrValue>

  /** A source `prefix_filter` key: absent, JSON null, or a string. */
  datatype PrefixFilter = Absent | Null | Given(s: string)

  /** `source.get('prefix_filter', '')` read for truthiness: absent and null both give ''. */
  function PrefixText(p: PrefixFilter): string {
    if p.Given? then p.s else ""
  }

  /** One replication rule's source side and its destinations. */
  datatype SourceConfig = SourceConfig(bucket: string, region: string, prefixFilter: PrefixFilter)
  datatype ReplicationRule = ReplicationRule(source: SourceConfig, destinations: seq<Destination>)

  /**
   * The parameter name scheme shared by the seeder and the lookup:
   * '/{stack}/{bucket}', plus '/{prefix}' when the prefix is non-empty.
   */
  function ParamName(stack: string, bucket: string, prefix: string): (name: string)
    ensures prefix == "" ==> name == "/" + stack + "/" + bucket
    ensures prefix != "" ==> name == "/" + stack + "/" + bucket + "/" + prefix
  {
    var base := "/" + stack + "/" + bucket;
    if prefix != "" then base + "/" + prefix else base
  }

  /** A destination's encoding; None for the KeyError of a missing region or bucket. */
  function EncodeDestination(d: Destination): (v: Option<AttrValue>)
    ensures v.Some? <==> d.region.Some? && d.bucket.Some?
    ensures v.Some? ==> v.value.M?
    ensures v.Some? ==>
              var m := v.value.fields;
              "region" in m && "bucket" in m &&
              m["region"] == S(d.region.value) && m["bucket"] == S(d.bucket.value) &&
              ("kms_key_arn" in m <==> d.kmsKeyArn.Some?) &&
              ("storage_class" in m <==> d.storageClass.Some?) &&
              ("backup" in m <==> d.backup.Some?) &&
              (d.kmsKeyArn.Some? ==> m["kms_key_arn"] == S(d.kmsKeyArn.value)) &&
              (d.storageClass.Some? ==> m["storage_class"] == S(d.storageClass.value)) &&
              (d.backup.Some? ==> m["backup"] == BOOL(d.backup.value)) &&
              m.Keys <= {"region", "bucket", "kms_key_arn", "storage_class", "backup"}
  {
    if d.region.None? || d.bucket.None? then None
    else
      var m0 := map["region" := S(d.region.value), "bucket" := S(d.bucket.value)];
      var m1 := if d.kmsKeyArn.Some? then m0["kms_key_arn" := S(d.kmsKeyArn.value)] else m0;
      var m2 := if d.storageClass.Some? then m1["storage_class" := S(d.storageClass.value)] else m1;
      var m3 := if d.backup.Some? then m2["backup" := BOOL(d.backup.value)] else m2;
      Some(M(m3))
  }

  /** The encoding of a destination list, one entry per destination in order. */
  function EncodeList(ds: seq<Destination>): (r: Option<seq<AttrValue>>)
    ensures r.Some? <==> forall i :: 0 <= i < |ds| ==> EncodeDestination(ds[i]).Some?
    ensures r.Some? ==> |r.value| == |ds| && forall i :: 0 <= i < |ds| ==> Some(r.value[i]) == EncodeDestination(ds[i])
  {
    if |ds| == 0 then Some([])
    else
      var init := EncodeList(ds[..|ds| - 1]);
      var last := EncodeDestination(ds[|ds| - 1]);
      if init.None? || last.None? then None else Some(init.value + [last.value])
  }

  /** `destinations_to_dynamodb_format`: the loop that fills and appends one item per destination. */
  method DestinationsToDynamoDbFormat(ds: seq<Destination>) returns (r: Option<seq<AttrValue>>)
    ensures r == EncodeList(ds)
  {
    var result: seq<AttrValue> := [];
    var i := 0;
    while i < |ds|
      invariant 0 <= i <= |ds|
      invariant EncodeList(ds[..i]) == Some(result)
    {
      assert ds[..i + 1][..i] == ds[..i];
      var d := ds[i];
      if d.region.None? || d.bucket.None? {
        EncodeFailsOnPrefix(ds, i + 1);
        return None;
      }
      var item := map["region" := S(d.region.value), "bucket" := S(d.bucket.value)];
      if d.kmsKeyArn.Some? {
        item := item["kms_key_arn" := S(d.kmsKeyArn.value)];
      }
      if d.storageClass.Some? {
        item := item["storage_class" := S(d.storageClass.value)];
      }
      if d.backup.Some? {
        item := item["backup" := BOOL(d.backup.value)];
      }
      result := result + [M(item)];
      i := i + 1;
    }
    assert ds[..i] == ds;
    r := Some(result);
  }

  lemma EncodeFailsOnPrefix(ds: seq<Destination>, k: int)
    requires 0 <= k <= |ds| && EncodeList(ds[..k]).None?
    ensures EncodeList(ds).None?
  {
    var i :| 0 <= i < k && EncodeDestination(ds[..k][i]).None?;
    assert ds[i] == ds[..k][i];
  }

  /** The item a rule is seeded with, and its name; None when a destination cannot be encoded. */
  function SeedItem(stack: string, rule: ReplicationRule, now: int): (r: Option<(string, ParamItem)>)
    ensures r.Some? <==> EncodeList(rule.destinations).Some?
    ensures r.Some? ==> r.value.0 == ParamName(stack, rule.source.bucket, PrefixText(rule.source.prefixFilter)) &&
                        r.value.1 == map["ParameterName" := S(r.value.0),
                                         "Destinations" := L(EncodeList(rule.destinations).value),
                                         "LastUpdated" := N(now)]
  {
    var name := ParamName(stack, rule.source.bucket, PrefixText(rule.source.prefixFilter));
    var encoded := EncodeList(rule.destinations);
    if encoded.None? then None
    else Some((name, map["ParameterName" := S(name), "Destinations" := L(encoded.value), "LastUpdated" := N(now)]))
  }

  /** `seed_parameters_table`: one put per rule in order; a later rule with the same name overwrites. */
  function SeedTable(stack: string, rules: seq<ReplicationRule>, now: int): Option<map<string, ParamItem>> {
    if |rules| == 0 then Some(map[])
    else
      var init := SeedTable(stack, rules[..|rules| - 1], now);
      var item := SeedItem(stack, rules[|rules| - 1], now);
      if init.None? || item.None? then None else Some(init.value[item.value.0 := item.value.1])
  }

  /** A rule whose name no later rule reuses keeps its seeded item. */
  lemma {:induction false} SeededEntry(stack: string, rules: seq<ReplicationRule>, now: int, i: int)
    requires SeedTable(stack, rules, now).Some? && 0 <= i < |rules|
    requires forall j :: i < j < |rules| ==>
               (SeedItem(stack, rules[j], now).Some? &&
                SeedItem(stack, rules[j], now).value.0 != ParamName(stack, rules[i].source.bucket, PrefixText(rules[i].source.prefixFilter)))
    ensures SeedItem(stack, rules[i], now).Some?
    ensures var item := SeedItem(stack, rules[i], now).value;
            item.0 in SeedTable(stack, rules, now).value && SeedTable(stack, rules, now).value[item.0] == item.1
    decreases |rules|
  {
    var n := |rules|;
    var init := rules[..n - 1];
    if i < n - 1 {
      assert forall j :: i < j < |init| ==> init[j] == rules[j];
      SeededEntry(stack, init, now, i);
      assert init[i] == rules[i];
    }
  }
}
