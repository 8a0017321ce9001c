# Custom Checkov policy checks for Terraform AWS resources, in Dafny

The repository has three custom Checkov checks. Each one is a pure predicate
over the attribute map (`conf`) of a parsed Terraform resource and returns
PASSED or FAILED. Each also carries fixed metadata: a name, an id, a category
and the resource types it supports.

- `SecurityGroupHasDescription` (CUSTOM_AWS_3, `aws_security_group`):
  the `description` must be authored. It must not be missing, empty, or
  Terraform's default "Managed by Terraform".
- `EC2InPrivateSubnet` (CUSTOM_AWS_2, `aws_instance`): the `subnet_id`
  must contain the case-sensitive substring `private`.
- `EC2InstanceProfile` (CUSTOM_AWS_1, `aws_instance`):
  `iam_instance_profile` must be truthy and must be none of `None`, `[""]`
  and `""`. This check does not unwrap lists.

The model states each check's verdict directly in terms of the raw shape of
the attribute: missing, `None`, a string, or a list with a given head. It
proves the behaviours the checks are written for as lemmas: fail-closed
handling of missing and falsy values, placeholders, first-element-only
inspection, case sensitivity, and that the verdict depends on one key only.

Layout, one module per file:

- `python.dfy` (`Python`): attribute values (`PyNone | Str | PyList`),
  truthiness, `dict.get` and list membership.
- `attribute_view.dfy` (`AttributeView`): the first-element unwrap used by
  two of the checks.
- `substring.dfy` (`Substring`): Python's `in` on strings.
- `pystr.dfy` (`PyStr`): Python's `str()` and `repr()` on attribute values.
  It proves that a marker word (ASCII letters only, not starting with a
  letter an escape sequence can hold), such as `private`, occurs in `str(v)` exactly
  when it occurs in one of the strings inside `v`, or `v` holds a `None` and
  the word occurs in the text `None`. Quotes, escapes, brackets and
  separators can neither create nor hide such a word.
- `checkov.dfy` (`Checkov`): the verdict, category and metadata types.
- `sg_no_description.dfy`, `ec2_in_private_subnet.dfy`,
  `ec2_instance_profile.dfy`: one check each.

Modelling decisions:

- Python's `==` on `None`, strings and lists is structural equality. That is
  Dafny's `==` on `PyVal`.
- A first-element unwrap is easy to assume idempotent, but the code
  unwraps one level only: `[["a"]]` becomes `["a"]`. The model follows the
  code, and `AttributeView.UnwrapIdempotentUnlessNested` states exactly when
  applying the unwrap twice changes nothing.
- `EC2InstanceProfile` is modelled exactly as written, with no unwrap. So
  `["p"]`, `[None]` and `["", "x"]` pass, and only `[""]` and `[]` fail among
  lists.

## Model

| member | source | states |
|---|---|---|
| `Python.Truthy` | check/custom_checks/ec2_instance_profile.py:15 | a value is falsy exactly when it is `None`, `""` or `[]` |
| `Python.InList` | check/custom_checks/sg_no_description.py:17 | Python list membership holds exactly when the value equals some element of the list |
| `Python.Get` | check/custom_checks/sg_no_description.py:14 | `conf.get(key, default)`: the entry when the key is present, the default otherwise |
| `AttributeView.Unwrap` | check/custom_checks/sg_no_description.py:15-16 | the first-element unwrap; characterised by `UnwrapHeadDecides`, `UnwrapScalarAndEmpty` and `UnwrapIdempotentUnlessNested` |
| `AttributeView.UnwrapHeadDecides` | check/custom_checks/sg_no_description.py:15-16 | two non-empty lists with the same head unwrap to the same value, which is that head |
| `AttributeView.UnwrapScalarAndEmpty` | check/custom_checks/ec2_in_private_subnet.py:15-16 | a value that is not a list is left unchanged; an empty list unwraps to the check's default |
| `AttributeView.UnwrapIdempotentUnlessNested` | check/custom_checks/sg_no_description.py:15-16 | with a default that is not a list, unwrapping twice equals unwrapping once exactly when the first result is not a list |
| `AttributeView.UnwrapOneLevelOnly` | check/custom_checks/ec2_in_private_subnet.py:15-16 | `[["a"]]` unwraps to `["a"]`, and only a second unwrap gives `"a"` |
| `Substring.Contains` | check/custom_checks/ec2_in_private_subnet.py:17 | `n in h` on strings holds exactly when `n` is a prefix of some suffix of `h` |
| `PyStr.QuoteFor` | check/custom_checks/ec2_in_private_subnet.py:17 | the quote `repr` puts around a string is a single or a double quote, double only when the string holds `'` and no `"` |
| `PyStr.EscapeChar` | check/custom_checks/ec2_in_private_subnet.py:17 | how `repr` writes one character; characterised by `EscapeContains` |
| `PyStr.Escape` | check/custom_checks/ec2_in_private_subnet.py:17 | the body of `repr(s)` between its quotes; characterised by `EscapeContains` |
| `PyStr.Repr` | check/custom_checks/ec2_in_private_subnet.py:17 | `repr(v)` of `None`, a string or a list; characterised by `ReprMentions` |
| `PyStr.JoinReprs` | check/custom_checks/ec2_in_private_subnet.py:17 | the comma-separated element reprs inside a list's brackets; characterised by `JoinMentions` |
| `PyStr.ToStr` | check/custom_checks/ec2_in_private_subnet.py:17 | `str(v)`: a string is itself, anything else its repr; characterised by `StrMentions` |
| `PyStr.EscapeContains` | check/custom_checks/ec2_in_private_subnet.py:17 | a marker word occurs in the escaped body of `repr(s)` exactly when it occurs in `s` |
| `PyStr.ReprMentions` | check/custom_checks/ec2_in_private_subnet.py:17 | a marker word occurs in `repr(v)` exactly when some string inside `v` contains it (`None` reads as the text `None`) |
| `PyStr.JoinMentions` | check/custom_checks/ec2_in_private_subnet.py:17 | a marker word occurs in the comma-joined reprs of a list exactly when one of its elements mentions it |
| `PyStr.StrMentions` | check/custom_checks/ec2_in_private_subnet.py:17 | a marker word occurs in `str(v)` exactly when `v` mentions it |
| `SgNoDescription.ScanResourceConf` | check/custom_checks/sg_no_description.py:13-19 | PASSED exactly when `description` is present and is an authored string, a list headed by an authored string, or a list headed by a non-empty list |
| `SgNoDescription.MissingDescriptionFails` | check/custom_checks/sg_no_description.py:14-19 | a missing `description` (default `[None]`) gives FAILED |
| `SgNoDescription.EmptyListFails` | check/custom_checks/sg_no_description.py:16-19 | `description = []` gives FAILED |
| `SgNoDescription.PlaceholderFails` | check/custom_checks/sg_no_description.py:15-19 | `""` and "Managed by Terraform", bare or as a one-element list, give FAILED |
| `SgNoDescription.FalsyFails` | check/custom_checks/sg_no_description.py:17-19 | every falsy `description` gives FAILED |
| `SgNoDescription.FirstElementDecides` | check/custom_checks/sg_no_description.py:16 | two non-empty lists with the same head give the same verdict |
| `SgNoDescription.AuthoredPasses` | check/custom_checks/sg_no_description.py:17-18 | any string other than `""` and the placeholder passes, bare or heading a list; `["allow internal traffic"]` passes and `["Managed by Terraform"]` fails |
| `SgNoDescription.OnlyDescriptionMatters` | check/custom_checks/sg_no_description.py:14 | two configurations that agree on `description` get the same verdict |
| `SgNoDescription.Meta` | check/custom_checks/sg_no_description.py:7-11 | the name, id, categories and supported resources passed to the base class; characterised by `SgNoDescription.MetadataIsFixed` |
| `SgNoDescription.MetadataIsFixed` | check/custom_checks/sg_no_description.py:7-10 | the name, id CUSTOM_AWS_3, resources exactly `["aws_security_group"]`, category NETWORKING |
| `Ec2InPrivateSubnet.ScanResourceConf` | check/custom_checks/ec2_in_private_subnet.py:13-19 | PASSED exactly when `subnet_id` is present and is a string containing `private`, or a non-empty list whose head mentions `private` |
| `Ec2InPrivateSubnet.MissingSubnetFails` | check/custom_checks/ec2_in_private_subnet.py:14-19 | a missing `subnet_id` (default `[]`, unwrapped to `""`) gives FAILED |
| `Ec2InPrivateSubnet.FalsyFails` | check/custom_checks/ec2_in_private_subnet.py:15-19 | a `subnet_id` of `None`, `""` or `[]` gives FAILED |
| `Ec2InPrivateSubnet.PrivateSubnetPasses` | check/custom_checks/ec2_in_private_subnet.py:16-18 | any string containing `private` passes, bare or heading a list; `["subnet-private-abc"]` passes |
| `Ec2InPrivateSubnet.HeadStringDecides` | check/custom_checks/ec2_in_private_subnet.py:16-19 | for a list headed by a string, PASSED exactly when that string contains `private` |
| `Ec2InPrivateSubnet.OnlyFirstElement` | check/custom_checks/ec2_in_private_subnet.py:16-17 | two non-empty lists with the same head give the same verdict; `["subnet-public", "subnet-private"]` fails |
| `Ec2InPrivateSubnet.PublicSubnetHasNoMarker` | check/custom_checks/ec2_in_private_subnet.py:17 | `private` is not a substring of `subnet-public` |
| `Ec2InPrivateSubnet.CaseSensitive` | check/custom_checks/ec2_in_private_subnet.py:17 | `["PRIVATE"]` gives FAILED |
| `Ec2InPrivateSubnet.OnlySubnetIdMatters` | check/custom_checks/ec2_in_private_subnet.py:14 | two configurations that agree on `subnet_id` get the same verdict |
| `Ec2InPrivateSubnet.Meta` | check/custom_checks/ec2_in_private_subnet.py:7-11 | the name, id, categories and supported resources passed to the base class; characterised by `Ec2InPrivateSubnet.MetadataIsFixed` |
| `Ec2InPrivateSubnet.MetadataIsFixed` | check/custom_checks/ec2_in_private_subnet.py:7-10 | the name, id CUSTOM_AWS_2, resources exactly `["aws_instance"]`, category NETWORKING |
| `Ec2InstanceProfile.ScanResourceConf` | check/custom_checks/ec2_instance_profile.py:13-17 | PASSED exactly when `iam_instance_profile` is present and is a non-empty string, or a non-empty list other than `[""]` |
| `Ec2InstanceProfile.MissingProfileFails` | check/custom_checks/ec2_instance_profile.py:14-17 | a missing `iam_instance_profile` reads as `None` and gives FAILED |
| `Ec2InstanceProfile.EmptyProfileFails` | check/custom_checks/ec2_instance_profile.py:15-17 | `""`, `[""]` and every falsy value (so also `[]`) give FAILED |
| `Ec2InstanceProfile.NonEmptyStringPasses` | check/custom_checks/ec2_instance_profile.py:15-16 | any non-empty string passes |
| `Ec2InstanceProfile.ListsComparedWhole` | check/custom_checks/ec2_instance_profile.py:15-16 | lists are not unwrapped: `["my-profile"]`, `[None]` and `["", "x"]` all pass |
| `Ec2InstanceProfile.OnlyProfileMatters` | check/custom_checks/ec2_instance_profile.py:14 | two configurations that agree on `iam_instance_profile` get the same verdict |
| `Ec2InstanceProfile.Meta` | check/custom_checks/ec2_instance_profile.py:7-11 | the name, id, categories and supported resources passed to the base class; characterised by `Ec2InstanceProfile.MetadataIsFixed` |
| `Ec2InstanceProfile.MetadataIsFixed` | check/custom_checks/ec2_instance_profile.py:7-10 | the name, id CUSTOM_AWS_1, resources exactly `["aws_instance"]`, category IAM; the three checks' ids are pairwise distinct |

## Left out

- `BaseResourceCheck`, the `CheckCategories` and `CheckResult` enums, and the
  registration done by each module-level `check = ...` line belong to the
  Checkov library, which is not part of this model. `CheckResult` is modelled
  with only PASSED and FAILED. `Category` is modelled with only the two
  categories the checks use.
- The registry, dispatch of checks to resources, result ordering, SKIPPED
  verdicts and fault catching all live in Checkov, not in these files.
- Parsing Terraform/HCL into `conf` is external. `conf` is taken as given.
- Attribute values are limited to `None`, strings and nested lists. Booleans,
  numbers and dictionaries, and `str()` or truthiness on them, are not
  modelled.
- `PyStr.Repr`: writes every character outside Latin-1 unchanged. Python writes
  the non-printable ones among them (for example U+2028 or unassigned code
  points) as `\uXXXX` or `\UXXXXXXXX`. This needs Unicode's character
  database. It cannot change whether a marker word occurs (`PyStr.IsMarker`
  excludes words that start with `u` or `U`), so `private` is unaffected.
- Python's `in` on lists also compares by identity (`is`). Identity and
  equality agree on these values, so the model compares by equality alone.
