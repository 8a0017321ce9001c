/** `SecurityGroupHasDescription` (CUSTOM_AWS_3): an `aws_security_group`
    passes only when its `description` is authored, that is neither missing,
    empty, nor the default Terraform fills in. */
module SgNoDescription {
  import opened Python
  import opened AttributeView
  import opened Checkov

  /** The name, id, categories and supported resources the check is constructed with. */
  function Meta(): CheckMeta {
    CheckMeta(
      "Ensure every security group has a description",
      "CUSTOM_AWS_3",
      [NETWORKING],
      ["aws_security_group"])
  }

  /** The description Terraform writes when the author gives none. */
  const Placeholder := "Managed by Terraform"

  /** A description string that counts as authored. */
  predicate Authored(s: string) {
    s != "" && s != Placeholder
  }

  /** `scan_resource_conf`. A missing key reads as `[None]`; a list is
      unwrapped to its first element, or to `None` when empty; the verdict
      is PASSED when that value is truthy and is neither "" nor the placeholder.
      The contract states the verdict by the raw shape of the attribute. */
  function ScanResourceConf(conf: Conf): (r: CheckResult)
    ensures r == PASSED <==>
      "description" in conf &&
      match conf["description"]
      case PyNone => false
      case Str(s) => Authored(s)
      case PyList(xs) =>
        |xs| > 0 &&
        match xs[0]
        case PyNone => false
        case Str(s) => Authored(s)
        case PyList(ys) => |ys| > 0
  {
    var description := Unwrap(Get(conf, "description", PyList([PyNone])), PyNone);
    if Truthy(description) && !InList(description, [Str(""), Str(Placeholder)]) then PASSED else FAILED
  }

  /** Without a `description` the default `[None]` unwraps to `None`. */
  lemma MissingDescriptionFails(conf: Conf)
    requires "description" !in conf
    ensures ScanResourceConf(conf) == FAILED
  {}

  /** An empty list unwraps to `None`. */
  lemma EmptyListFails(conf: Conf)
    requires "description" in conf && conf["description"] == PyList([])
    ensures ScanResourceConf(conf) == FAILED
  {}

  /** The empty string and the placeholder fail, bare or as a one-element list. */
  lemma PlaceholderFails(conf: Conf, s: string)
    requires s == "" || s == Placeholder
    requires "description" in conf
    requires conf["description"] == Str(s) || conf["description"] == PyList([Str(s)])
    ensures ScanResourceConf(conf) == FAILED
  {}

  /** Every falsy value fails (fail-closed). */
  lemma FalsyFails(conf: Conf)
    requires "description" in conf && !Truthy(conf["description"])
    ensures ScanResourceConf(conf) == FAILED
  {}

  /** For a non-empty list only the first element decides. */
  lemma FirstElementDecides(conf: Conf, xs: seq<PyVal>, ys: seq<PyVal>)
    requires |xs| > 0 && |ys| > 0 && xs[0] == ys[0]
    ensures ScanResourceConf(conf["description" := PyList(xs)])
         == ScanResourceConf(conf["description" := PyList(ys)])
  {}

  /** Any authored string passes, bare or as the head of a list, e.g.
      `["allow internal traffic"]`. */
  lemma AuthoredPasses(conf: Conf, s: string, rest: seq<PyVal>)
    requires Authored(s)
    ensures ScanResourceConf(conf["description" := Str(s)]) == PASSED
    ensures ScanResourceConf(conf["description" := PyList([Str(s)] + rest)]) == PASSED
    ensures ScanResourceConf(map["description" := PyList([Str("allow internal traffic")])]) == PASSED
    ensures ScanResourceConf(map["description" := PyList([Str(Placeholder)])]) == FAILED
  {}

  /** The verdict depends on the `description` entry alone. */
  lemma OnlyDescriptionMatters(conf: Conf, other: Conf)
    requires "description" in conf <==> "description" in other
    requires "description" in conf ==> conf["description"] == other["description"]
    ensures ScanResourceConf(conf) == ScanResourceConf(other)
  {}

  /** The metadata the check registers with. */
  lemma MetadataIsFixed()
    ensures Meta().name == "Ensure every security group has a description"
    ensures Meta().id == "CUSTOM_AWS_3"
    ensures Meta().supportedResources == ["aws_security_group"]
    ensures Meta().categories == [NETWORKING]
  {}
}
