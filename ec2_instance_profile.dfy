/** `EC2InstanceProfile` (CUSTOM_AWS_1): an `aws_instance` passes only when its
    `iam_instance_profile` is truthy and is none of `None`, `[""]` and "".
    Unlike the other two checks it does not unwrap lists: the value is
    compared whole. */
module Ec2InstanceProfile {
  import opened Python
  import opened Checkov
  import SgNoDescription
  import Ec2InPrivateSubnet

  /** The name, id, categories and supported resources the check is constructed with. */
  function Meta(): CheckMeta {
    CheckMeta(
      "Ensure EC2 instance has an IAM instance profile attached",
      "CUSTOM_AWS_1",
      [IAM],
      ["aws_instance"])
  }

  /** `scan_resource_conf`. A missing key reads as `None`. The contract states
      the verdict by the shape of the attribute: a non-empty string, or a
      non-empty list other than `[""]`. */
  function ScanResourceConf(conf: Conf): (r: CheckResult)
    ensures r == PASSED <==>
      "iam_instance_profile" in conf &&
      match conf["iam_instance_profile"]
      case PyNone => false
      case Str(s) => s != ""
      case PyList(xs) => xs != [] && xs != [Str("")]
  {
    var iamProfile := Get(conf, "iam_instance_profile", PyNone);
    if Truthy(iamProfile) && !InList(iamProfile, [PyNone, PyList([Str("")]), Str("")]) then PASSED else FAILED
  }

  /** A missing key yields `None`. */
  lemma MissingProfileFails(conf: Conf)
    requires "iam_instance_profile" !in conf
    ensures ScanResourceConf(conf) == FAILED
  {}

  /** `""`, `[""]` and `[]` fail; so does every falsy value (fail-closed). */
  lemma EmptyProfileFails(conf: Conf, v: PyVal)
    requires v == Str("") || v == PyList([Str("")]) || !Truthy(v)
    ensures ScanResourceConf(conf["iam_instance_profile" := v]) == FAILED
  {}

  /** Any non-empty string passes. */
  lemma NonEmptyStringPasses(conf: Conf, s: string)
    requires s != ""
    ensures ScanResourceConf(conf["iam_instance_profile" := Str(s)]) == PASSED
  {}

  /** Lists are not unwrapped: `["my-profile"]`, `[None]` and `["", "x"]` all pass. */
  lemma ListsComparedWhole(conf: Conf)
    ensures ScanResourceConf(conf["iam_instance_profile" := PyList([Str("my-profile")])]) == PASSED
    ensures ScanResourceConf(conf["iam_instance_profile" := PyList([PyNone])]) == PASSED
    ensures ScanResourceConf(conf["iam_instance_profile" := PyList([Str(""), Str("x")])]) == PASSED
  {}

  /** The verdict depends on the `iam_instance_profile` entry alone. */
  lemma OnlyProfileMatters(conf: Conf, other: Conf)
    requires "iam_instance_profile" in conf <==> "iam_instance_profile" in other
    requires "iam_instance_profile" in conf ==> conf["iam_instance_profile"] == other["iam_instance_profile"]
    ensures ScanResourceConf(conf) == ScanResourceConf(other)
  {}

  /** The metadata the check registers with; its id differs from the other two checks'. */
  lemma MetadataIsFixed()
    ensures Meta().name == "Ensure EC2 instance has an IAM instance profile attached"
    ensures Meta().id == "CUSTOM_AWS_1"
    ensures Meta().supportedResources == ["aws_instance"]
    ensures Meta().categories == [IAM]
    ensures Meta().id != Ec2InPrivateSubnet.Meta().id && Meta().id != SgNoDescription.Meta().id
    ensures Ec2InPrivateSubnet.Meta().id != SgNoDescription.Meta().id
  {}
}
