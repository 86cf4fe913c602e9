/**
 * The source agent's read side of the replication-parameters table: an item is looked
 * up by name and its attribute values are turned back into destination records.
 * A lookup that raises (a store error, or an attribute of the wrong type) yields None.
 */
module ParametersRepository {
  import opened Wrappers
  import opened Records
  import opened DynamoDbUtils

  /** The table as the agent sees it: items by name, and the names whose get_item raises. */
  datatype ParamStore = ParamStore(items: map<string, ParamItem>, unreachable: set<string>)

  /** A deserialized item: each key present only when the stored item has the attribute. */
  datatype ParamValue = ParamValue(
    parameterName: Option<string>,
    destinations: Option<seq<Destination>>,
    lastUpdated: Option<int>)

  /**
   * One destination: the value must be a map; region and bucket, when present, must be
   * strings (else the lookup raises); the optional keys are kept only when well-typed.
   */
  function DecodeDestination(v: AttrValue): (d: Option<Destination>)
    ensures d.Some? <==> v.M? && ("region" in v.fields ==> v.fields["region"].S?) &&
                                ("bucket" in v.fields ==> v.fields["bucket"].S?)
    ensures d.Some? ==>
              var m := v.fields;
              (d.value.region.Some? <==> "region" in m) &&
              (d.value.bucket.Some? <==> "bucket" in m) &&
              (d.value.kmsKeyArn.Some? <==> "kms_key_arn" in m && m["kms_key_arn"].S?) &&
              (d.value.storageClass.Some? <==> "storage_class" in m && m["storage_class"].S?) &&
              (d.value.backup.Some? <==> "backup" in m && m["backup"].BOOL?) &&
              (d.value.region.Some? ==> m["region"] == S(d.value.region.value)) &&
              (d.value.bucket.Some? ==> m["bucket"] == S(d.value.bucket.value)) &&
              (d.value.kmsKeyArn.Some? ==> m["kms_key_arn"] == S(d.value.kmsKeyArn.value)) &&
              (d.value.storageClass.Some? ==> m["storage_class"] == S(d.value.storageClass.value)) &&
              (d.value.backup.Some? ==> m["backup"] == BOOL(d.value.backup.value))
  {
    if !v.M? then None
    else
      var m := v.fields;
      if ("region" in m && !m["region"].S?) || ("bucket" in m && !m["bucket"].S?) then None
      else
        Some(Destination(
          if "region" in m then Some(m["region"].s) else None,
          if "bucket" in m then Some(m["bucket"].s) else None,
          if "kms_key_arn" in m && m["kms_key_arn"].S? then Some(m["kms_key_arn"].s) else None,
          if "storage_class" in m && m["storage_class"].S? then Some(m["storage_class"].s) else None,
          if "backup" in m && m["backup"].BOOL? then Some(m["backup"].b) else None))
  }

  /** A destination list: every element decoded in order, or None when one raises. */
  function DecodeList(raw: seq<AttrValue>): (r: Option<seq<Destination>>)
    ensures r.Some? <==> forall i :: 0 <= i < |raw| ==> DecodeDestination(raw[i]).Some?
    ensures r.Some? ==> |r.value| == |raw| && forall i :: 0 <= i < |raw| ==> Some(r.value[i]) == DecodeDestination(raw[i])
  {
    if |raw| == 0 then Some([])
    else
      var init := DecodeList(raw[..|raw| - 1]);
      var last := DecodeDestination(raw[|raw| - 1]);
      if init.None? || last.None? then None else Some(init.value + [last.value])
  }

  /** `_deserialize_destinations`: the loop that decodes and appends one destination at a time. */
  method DeserializeDestinations(raw: seq<AttrValue>) returns (r: Option<seq<Destination>>)
    ensures r == DecodeList(raw)
  {
    var result: seq<Destination> := [];
    var i := 0;
    while i < |raw|
      invariant 0 <= i <= |raw|
      invariant DecodeList(raw[..i]) == Some(result)
    {
      var d := DeserializeDestination(raw[i]);
      DecodeStep(raw, i, result);
      if d.None? {
        DecodeFailsOnPrefix(raw, i + 1);
        return None;
      }
      result := result + [d.value];
      i := i + 1;
    }
    assert raw[..i] == raw;
    r := Some(result);
  }

  /** The body of that loop for one element: a non-map, or a mistyped region or bucket, raises. */
  method DeserializeDestination(dest: AttrValue) returns (d: Option<Destination>)
    ensures d == DecodeDestination(dest)
  {
    if !dest.M? {
      return None;
    }
    var m := dest.fields;
    var region: Option<string> := None;
    var bucket: Option<string> := None;
    var kmsKeyArn: Option<string> := None;
    var storageClass: Option<string> := None;
    var backup: Option<bool> := None;
    if "region" in m {
      if !m["region"].S? {
        return None;
      }
      region := Some(m["region"].s);
    }
    if "bucket" in m {
      if !m["bucket"].S? {
        return None;
      }
      bucket := Some(m["bucket"].s);
    }
    if "kms_key_arn" in m && m["kms_key_arn"].S? {
      kmsKeyArn := Some(m["kms_key_arn"].s);
    }
    if "storage_class" in m && m["storage_class"].S? {
      storageClass := Some(m["storage_class"].s);
    }
    if "backup" in m && m["backup"].BOOL? {
      backup := Some(m["backup"].b);
    }
    d := Some(Destination(region, bucket, kmsKeyArn, storageClass, backup));
  }

  lemma DecodeStep(raw: seq<AttrValue>, i: nat, result: seq<Destination>)
    requires i < |raw| && DecodeList(raw[..i]) == Some(result)
    ensures DecodeList(raw[..i + 1]) ==
              if DecodeDestination(raw[i]).None? then None else Some(result + [DecodeDestination(raw[i]).value])
  {
    assert raw[..i + 1][..i] == raw[..i];
  }

  lemma DecodeFailsOnPrefix(raw: seq<AttrValue>, k: int)
    requires 0 <= k <= |raw| && DecodeList(raw[..k]).None?
    ensures DecodeList(raw).None?
  {
    var i :| 0 <= i < k && DecodeDestination(raw[..k][i]).None?;
    assert raw[i] == raw[..k][i];
  }

  /** `_deserialize_item`: each attribute present must carry its expected type tag. */
  function DeserializeItem(item: ParamItem): (v: Option<ParamValue>)
    ensures v.Some? <==>
              ("ParameterName" in item ==> item["ParameterName"].S?) &&
              ("LastUpdated" in item ==> item["LastUpdated"].N?) &&
              ("Destinations" in item ==> item["Destinations"].L? && DecodeList(item["Destinations"].items).Some?)
    ensures v.Some? ==>
              (v.value.parameterName.Some? <==> "ParameterName" in item) &&
              (v.value.destinations.Some? <==> "Destinations" in item) &&
              (v.value.lastUpdated.Some? <==> "LastUpdated" in item) &&
              (v.value.destinations.Some? ==> v.value.destinations == DecodeList(item["Destinations"].items))
  {
    if "ParameterName" in item && !item["ParameterName"].S? then None
    else if "LastUpdated" in item && !item["LastUpdated"].N? then None
    else if "Destinations" in item && !item["Destinations"].L? then None
    else
      var dests := if "Destinations" in item then DecodeList(item["Destinations"].items) else None;
      if "Destinations" in item && dests.None? then None
      else
        Some(ParamValue(
          if "ParameterName" in item then Some(item["ParameterName"].s) else None,
          dests,
          if "LastUpdated" in item then Some(item["LastUpdated"].n) else None))
  }

  /** `get_parameter`: the deserialized item, or None when absent or when anything raises. */
  function GetParameter(store: ParamStore, name: string): (v: Option<ParamValue>)
    ensures v.Some? ==> name in store.items && name !in store.unreachable
    ensures name in store.items && name !in store.unreachable ==> v == DeserializeItem(store.items[name])
  {
    if name in store.unreachable || name !in store.items then None
    else DeserializeItem(store.items[name])
  }

  /** The destinations a lookup of `name` yields, when it yields any. */
  function DestinationsAt(store: ParamStore, name: string): Option<seq<Destination>> {
    var v := GetParameter(store, name);
    if v.Some? then v.value.destinations else None
  }

  /**
   * `get_parameter_with_prefix`: the prefix-level parameter when a monitored prefix is
   * given and its item has destinations, else the bucket-level parameter, else ('', None).
   */
  function GetParameterWithPrefix(store: ParamStore, stack: string, bucket: string, monitoredPrefix: string)
    : (r: (string, Option<seq<Destination>>))
    ensures r.0 == "" <==> r.1.None?
    ensures r.1.Some? ==> r.1 == DestinationsAt(store, r.0)
    ensures r.0 == "" || r.0 == ParamName(stack, bucket, "") ||
            (monitoredPrefix != "" && r.0 == ParamName(stack, bucket, monitoredPrefix))
    ensures monitoredPrefix != "" && DestinationsAt(store, ParamName(stack, bucket, monitoredPrefix)).Some? ==>
              r.0 == ParamName(stack, bucket, monitoredPrefix)
    ensures (monitoredPrefix == "" || DestinationsAt(store, ParamName(stack, bucket, monitoredPrefix)).None?) ==>
              r == (if DestinationsAt(store, ParamName(stack, bucket, "")).Some?
                    then (ParamName(stack, bucket, ""), DestinationsAt(store, ParamName(stack, bucket, "")))
                    else ("", None))
  {
    var prefixName := ParamName(stack, bucket, monitoredPrefix);
    var bucketName := ParamName(stack, bucket, "");
    if monitoredPrefix != "" && DestinationsAt(store, prefixName).Some? then
      (prefixName, DestinationsAt(store, prefixName))
    else if DestinationsAt(store, bucketName).Some? then
      (bucketName, DestinationsAt(store, bucketName))
    else ("", None)
  }

  /** Decoding an encoded destination gives it back. */
  lemma DecodeEncodeDestination(d: Destination)
    requires EncodeDestination(d).Some?
    ensures DecodeDestination(EncodeDestination(d).value) == Some(d)
  {
  }

  /** Decoding an encoded destination list gives it back. */
  lemma {:induction false} DecodeEncodeList(ds: seq<Destination>)
    requires EncodeList(ds).Some?
    ensures DecodeList(EncodeList(ds).value) == Some(ds)
  {
    var enc := EncodeList(ds).value;
    forall i | 0 <= i < |ds|
      ensures DecodeDestination(enc[i]) == Some(ds[i])
    {
      DecodeEncodeDestination(ds[i]);
    }
    var dec := DecodeList(enc).value;
    assert dec == ds;
  }

  /**
   * A seeded rule is found again: with its item stored under its name and reachable, the
   * lookup for the rule's own bucket and prefix returns that name and the rule's destinations.
   */
  lemma SeedThenLookup(stack: string, rule: ReplicationRule, now: int, store: ParamStore)
    requires SeedItem(stack, rule, now).Some?
    requires var (name, item) := SeedItem(stack, rule, now).value;
             name in store.items && store.items[name] == item && name !in store.unreachable
    ensures GetParameterWithPrefix(store, stack, rule.source.bucket, PrefixText(rule.source.prefixFilter))
            == (SeedItem(stack, rule, now).value.0, Some(rule.destinations))
  {
    var (name, item) := SeedItem(stack, rule, now).value;
    DecodeEncodeList(rule.destinations);
    assert DeserializeItem(item).Some?;
    assert DestinationsAt(store, name) == Some(rule.destinations);
  }
}
