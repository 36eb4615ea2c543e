/**
 * The request schemas of src/validations/admin.validation.ts as recognisers.
 * JSON numbers are modelled as `real`: the schema bounds `page` and `limit`
 * but does not require whole numbers.
 */
module AdminValidation {
  import opened Text
  import opened Wrappers
  import opened Store

  datatype UserFilterBody = UserFilterBody(
    role: Option<string>, isEmailVerified: Option<bool>, isMfaEnabled: Option<bool>,
    search: Option<string>, page: Option<real>, limit: Option<real>,
    sortBy: Option<string>, sortOrder: Option<string>)

  /** `userFilterSchema`: every field optional; a present one must meet its enum or bound. */
  predicate UserFilterAccepts(b: UserFilterBody)
  {
    (b.role.Some? ==> ParseRole(b.role.value).Some?)
    && (b.page.Some? ==> b.page.value >= 1.0)
    && (b.limit.Some? ==> 1.0 <= b.limit.value <= 100.0)
    && (b.sortOrder.Some? ==> b.sortOrder.value in {"asc", "desc"})
  }

  /** The fields the schema constrains, as the reasons it gives for a refusal. */
  datatype FilterFault = BadRole | BadPage | BadLimit | BadSortOrder

  function FilterFaults(b: UserFilterBody): (r: seq<FilterFault>)
    ensures r == [] <==> UserFilterAccepts(b)
    ensures BadRole in r <==> b.role.Some? && b.role.value !in {"ADMIN", "CUSTOMER"}
    ensures BadPage in r <==> b.page.Some? && b.page.value < 1.0
    ensures BadLimit in r <==> b.limit.Some? && (b.limit.value < 1.0 || b.limit.value > 100.0)
    ensures BadSortOrder in r <==> b.sortOrder.Some? && b.sortOrder.value !in {"asc", "desc"}
  {
    (if b.role.Some? && ParseRole(b.role.value).None? then [BadRole] else [])
    + (if b.page.Some? && b.page.value < 1.0 then [BadPage] else [])
    + (if b.limit.Some? && (b.limit.value < 1.0 || b.limit.value > 100.0) then [BadLimit] else [])
    + (if b.sortOrder.Some? && b.sortOrder.value !in {"asc", "desc"} then [BadSortOrder] else [])
  }

  /** An empty body passes: nothing in the filter schema is required. */
  lemma EmptyFilterAccepted()
    ensures UserFilterAccepts(UserFilterBody(None, None, None, None, None, None, None, None))
  {
  }

  // `changeRoleSchema` is `Store.ParseRole`: a role of the two enum names, anything else refused.

  /** `adminActionSchema`: a reason of at least one character. */
  predicate AdminActionAccepts(reason: string): (ok: bool)
    ensures ok <==> reason != ""
  {
    JsLength(reason) >= 1
  }
}
