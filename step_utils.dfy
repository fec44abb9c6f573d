/** Helpers of the step builders: tags as a key/value list, and the lookup
    of the partition the current session's region belongs to. */
module StepUtils {
  import opened Wrappers
  import opened Dicts
  import opened PyValues

  /** One `{"Key": k, "Value": v}` entry. */
  function TagEntry(k: Key, v: Value): Value
  {
    VDict([(KStr("Key"), KeyValue(k)), (KStr("Value"), v)])
  }

  /** `tags_dict_to_kv_list(tags)`: one entry per tag, in dict order. */
  function TagsToKvList(tags: Dict<Key, Value>): (kv: seq<Value>)
    ensures |kv| == |tags|
    ensures forall i :: 0 <= i < |kv| ==>
      && kv[i].VDict? && |kv[i].entries| == 2
      && Get(kv[i].entries, KStr("Key")) == Some(KeyValue(tags[i].0))
      && Get(kv[i].entries, KStr("Value")) == Some(tags[i].1)
  {
    if tags == [] then [] else [TagEntry(tags[0].0, tags[0].1)] + TagsToKvList(tags[1..])
  }

  /** The key a `Key` entry holds, when it is a string or an integer. */
  function KeyOf(v: Value): Option<Key>
  {
    match v
    case VStr(s) => Some(KStr(s))
    case VInt(i) => Some(KInt(i))
    case _ => None
  }

  /** The reverse reading: a list of `{"Key", "Value"}` entries back into a dict. */
  function KvListToTags(kv: seq<Value>): Option<Dict<Key, Value>>
  {
    if kv == [] then Some([])
    else if !kv[0].VDict? then None
    else
      var k := Get(kv[0].entries, KStr("Key"));
      var v := Get(kv[0].entries, KStr("Value"));
      var rest := KvListToTags(kv[1..]);
      if k.None? || v.None? || KeyOf(k.value).None? || rest.None? then None
      else Some([(KeyOf(k.value).value, v.value)] + rest.value)
  }

  /** Reading the list back gives the tags dict it was made from: nothing is
      lost, reordered or invented. */
  lemma {:induction false} TagsRoundTrip(tags: Dict<Key, Value>)
    ensures KvListToTags(TagsToKvList(tags)) == Some(tags)
  {
    if tags != [] {
      var kv := TagsToKvList(tags);
      assert kv[1..] == TagsToKvList(tags[1..]);
      TagsRoundTrip(tags[1..]);
      assert KeyOf(KeyValue(tags[0].0)) == Some(tags[0].0);
      assert [(tags[0].0, tags[0].1)] + tags[1..] == tags;
    }
  }

  /** The first partition, in the listed order, whose regions contain `region`. */
  function FirstPartition(partitions: seq<(string, seq<string>)>, region: string): Option<string>
  {
    if partitions == [] then None
    else if region in partitions[0].1 then Some(partitions[0].0)
    else FirstPartition(partitions[1..], region)
  }

  /** `FirstPartition` finds a partition exactly when one lists the region,
      and then the earliest such. */
  lemma {:induction false} FirstPartitionSpec(partitions: seq<(string, seq<string>)>, region: string)
    ensures FirstPartition(partitions, region).None? <==> forall i :: 0 <= i < |partitions| ==> region !in partitions[i].1
    ensures FirstPartition(partitions, region).Some? ==> exists i ::
      && 0 <= i < |partitions| && region in partitions[i].1
      && partitions[i].0 == FirstPartition(partitions, region).value
      && forall j :: 0 <= j < i ==> region !in partitions[j].1
  {
    if partitions != [] && region !in partitions[0].1 {
      FirstPartitionSpec(partitions[1..], region);
      if FirstPartition(partitions, region).Some? {
        var i :| && 0 <= i < |partitions[1..]| && region in partitions[1..][i].1
                 && partitions[1..][i].0 == FirstPartition(partitions, region).value
                 && forall j :: 0 <= j < i ==> region !in partitions[1..][j].1;
        assert forall j :: 0 <= j < i + 1 ==> region !in partitions[j].1 by {
          forall j | 0 <= j < i + 1 ensures region !in partitions[j].1 {
            if j > 0 {
              assert partitions[j] == partitions[1..][j - 1];
            }
          }
        }
      } else {
        forall i | 0 <= i < |partitions| ensures region !in partitions[i].1 {
          if i > 0 {
            assert partitions[i] == partitions[1..][i - 1];
          }
        }
      }
    }
  }

  /** `get_aws_partition()`, with the session's answers passed in:
      `partitions` lists each available partition with the regions Step
      Functions is offered in there, `region` is the session's region (None
      when none is configured). The default partition is `"aws"`. */
  method GetAwsPartition(partitions: seq<(string, seq<string>)>, region: Option<string>) returns (partition: string)
    ensures region.None? ==> partition == "aws"
    ensures region.Some? ==> partition == FirstPartition(partitions, region.value).UnwrapOr("aws")
  {
    partition := "aws";
    if region.None? {
      return;
    }
    for i := 0 to |partitions|
      invariant FirstPartition(partitions, region.value) == FirstPartition(partitions[i..], region.value)
    {
      assert partitions[i..][1..] == partitions[i + 1..];
      if region.value in partitions[i].1 {
        partition := partitions[i].0;
        return;
      }
    }
  }
}
