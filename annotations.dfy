/**
 * The meaning of the data-annotation attributes the view models declare. Each
 * attribute is checked on its own; a failing one adds its message.
 */
module DataAnnotations {
  import opened Wrappers
  import opened Strings

  /** `[Required]` (empty strings not allowed): present and not null-or-white-space. */
  predicate RequiredHolds(v: Option<string>) {
    v.Some? && !IsBlank(v.value)
  }

  /** `[StringLength(max, MinimumLength = min)]`: a null value passes. */
  predicate StringLengthHolds(v: Option<string>, min: nat, max: nat) {
    v.None? || min <= |v.value| <= max
  }

  /** `[EmailAddress]` over the framework's format predicate `isEmail`: a null value passes. */
  predicate EmailAddressHolds(v: Option<string>, isEmail: string -> bool) {
    v.None? || isEmail(v.value)
  }

  /** The messages one attribute contributes. */
  function Check(holds: bool, message: string): seq<string> {
    if holds then [] else [message]
  }
}
