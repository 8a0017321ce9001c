/** The parts of the checkov framework that the custom checks name: the verdict,
    the category tags and the metadata every check is constructed with. */
module Checkov {

  /** The verdict of `scan_resource_conf`. */
  datatype CheckResult = PASSED | FAILED

  /** The category tags the checks use. */
  datatype Category = IAM | NETWORKING

  /** The arguments a check passes to its base class constructor. */
  datatype CheckMeta = CheckMeta(
    name: string,
    id: string,
    categories: seq<Category>,
    supportedResources: seq<string>)
}
