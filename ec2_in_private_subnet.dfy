/** `EC2InPrivateSubnet` (CUSTOM_AWS_2): an `aws_instance` passes only when
    its `subnet_id` contains the substring `private` (case-sensitive). */
module Ec2InPrivateSubnet {
  import opened Python
  import opened AttributeView
  import opened Substring
  import opened PyStr
  import opened Checkov

  /** The name, id, categories and supported resources the check is constructed with. */
  function Meta(): CheckMeta {
    CheckMeta(
      "Ensure EC2 instance is deployed in a private subnet",
      "CUSTOM_AWS_2",
      [NETWORKING],
      ["aws_instance"])
  }

  /** The substring a private subnet's id carries. */
  const Private := "private"

  lemma PrivateIsMarker()
    ensures IsMarker(Private)
  {
    assert forall i :: 0 <= i < |Private| ==> Private[i] in {'p', 'r', 'i', 'v', 'a', 't', 'e'};
  }

  /** `scan_resource_conf`. A missing key reads as `[]`; a list is unwrapped
      to its first element, or to "" when empty; the verdict is PASSED when
      `private` is a substring of `str()` of that value. The contract states
      the verdict by the raw shape of the attribute, with the strings nested
      in a list element searched one by one. */
  function ScanResourceConf(conf: Conf): (r: CheckResult)
    ensures r == PASSED <==>
      "subnet_id" in conf &&
      match conf["subnet_id"]
      case PyNone => false
      case Str(s) => Contains(Private, s)
      case PyList(xs) => |xs| > 0 && Mentions(Private, xs[0])
  {
    var subnetId := Unwrap(Get(conf, "subnet_id", PyList([])), Str(""));
    PrivateIsMarker();
    StrMentions(Private, subnetId);
    if Contains(Private, ToStr(subnetId)) then PASSED else FAILED
  }

  /** Without a `subnet_id` the default `[]` unwraps to "". */
  lemma MissingSubnetFails(conf: Conf)
    requires "subnet_id" !in conf
    ensures ScanResourceConf(conf) == FAILED
  {}

  /** Every falsy value fails (fail-closed). */
  lemma FalsyFails(conf: Conf)
    requires "subnet_id" in conf && !Truthy(conf["subnet_id"])
    ensures ScanResourceConf(conf) == FAILED
  {}

  /** A string mentioning `private`, bare or as the head of a list, passes;
      `["subnet-private-abc"]` is one. */
  lemma PrivateSubnetPasses(conf: Conf, a: string, b: string, rest: seq<PyVal>)
    ensures ScanResourceConf(conf["subnet_id" := Str(a + Private + b)]) == PASSED
    ensures ScanResourceConf(conf["subnet_id" := PyList([Str(a + Private + b)] + rest)]) == PASSED
    ensures ScanResourceConf(map["subnet_id" := PyList([Str("subnet-private-abc")])]) == PASSED
  {
    ContainsInfix(a, Private, b);
    ContainsInfix("subnet-", Private, "-abc");
    assert "subnet-" + Private + "-abc" == "subnet-private-abc";
  }

  /** PASSED exactly when `private` occurs in the head string of the list. */
  lemma HeadStringDecides(conf: Conf, s: string, rest: seq<PyVal>)
    ensures ScanResourceConf(conf["subnet_id" := PyList([Str(s)] + rest)]) == PASSED <==> Contains(Private, s)
  {}

  /** Only the first element is inspected: `["subnet-public", "subnet-private"]` fails. */
  lemma OnlyFirstElement(conf: Conf, xs: seq<PyVal>, ys: seq<PyVal>)
    requires |xs| > 0 && |ys| > 0 && xs[0] == ys[0]
    ensures ScanResourceConf(conf["subnet_id" := PyList(xs)])
         == ScanResourceConf(conf["subnet_id" := PyList(ys)])
    ensures ScanResourceConf(map["subnet_id" := PyList([Str("subnet-public"), Str("subnet-private")])]) == FAILED
  {
    PublicSubnetHasNoMarker();
  }

  /** `private` does not occur in `subnet-public`: no `p` there leaves room for it. */
  lemma PublicSubnetHasNoMarker()
    ensures !Contains(Private, "subnet-public")
  {
    var public := "subnet-public";
    forall i | 0 <= i <= |public|
      ensures !IsPrefix(Private, public[i..])
    {
      if i + |Private| <= |public| {
        assert public[i] != 'p';
        assert public[i..][..|Private|][0] == public[i];
      }
    }
  }

  /** The match is case-sensitive: `["PRIVATE"]` fails. */
  lemma CaseSensitive(conf: Conf)
    ensures ScanResourceConf(conf["subnet_id" := PyList([Str("PRIVATE")])]) == FAILED
  {}

  /** The verdict depends on the `subnet_id` entry alone. */
  lemma OnlySubnetIdMatters(conf: Conf, other: Conf)
    requires "subnet_id" in conf <==> "subnet_id" in other
    requires "subnet_id" in conf ==> conf["subnet_id"] == other["subnet_id"]
    ensures ScanResourceConf(conf) == ScanResourceConf(other)
  {}

  /** The metadata the check registers with. */
  lemma MetadataIsFixed()
    ensures Meta().name == "Ensure EC2 instance is deployed in a private subnet"
    ensures Meta().id == "CUSTOM_AWS_2"
    ensures Meta().supportedResources == ["aws_instance"]
    ensures Meta().categories == [NETWORKING]
  {}
}
