/** The payload of the category create and update routes and its declared constraints. */
module CategoryViewModels {
  import opened Wrappers
  import opened Strings
  import opened DataAnnotations
  import opened ModelStateExtension

  datatype EditorCategoryViewModel = EditorCategoryViewModel(name: Option<string>, slug: Option<string>)

  const NameRequiredMessage: string := "O campo nome é obrigatório."
  const NameLengthMessage: string := "O campo nome deve ter entre 3 e 80 caracteres"
  const SlugRequiredMessage: string := "o campo slug é obrigatório."
  const NameMinLength: nat := 3
  const NameMaxLength: nat := 80

  /** The three messages are pairwise different, so each one identifies its constraint. */
  lemma MessagesDistinct()
    ensures NameRequiredMessage != NameLengthMessage
    ensures NameRequiredMessage != SlugRequiredMessage
    ensures NameLengthMessage != SlugRequiredMessage
  {
    assert NameRequiredMessage[0] != SlugRequiredMessage[0];
    assert NameLengthMessage[0] != SlugRequiredMessage[0];
  }

  function NameErrors(name: Option<string>): seq<string> {
    Check(RequiredHolds(name), NameRequiredMessage)
      + Check(StringLengthHolds(name, NameMinLength, NameMaxLength), NameLengthMessage)
  }

  function SlugErrors(slug: Option<string>): seq<string> {
    Check(RequiredHolds(slug), SlugRequiredMessage)
  }

  /**
   * Model validation of the payload: one entry per property, sorted by key as
   * the validation state keeps them; "Name" and "Slug" have the same length
   * and "Name" sorts first, which is also declaration order. The payload is
   * valid exactly when the name is a non-blank string of 3 to 80 characters
   * and the slug any non-blank string.
   */
  function Validate(m: EditorCategoryViewModel): (ms: ModelState)
    ensures GetErrors(ms) == NameErrors(m.name) + SlugErrors(m.slug)
    ensures IsValid(ms) <==>
              (m.name.Some? && !IsBlank(m.name.value)
               && NameMinLength <= |m.name.value| <= NameMaxLength
               && m.slug.Some? && !IsBlank(m.slug.value))
  {
    var ms := [Entry("Name", NameErrors(m.name)), Entry("Slug", SlugErrors(m.slug))];
    assert ms[1..] == [Entry("Slug", SlugErrors(m.slug))];
    assert ms[1..][1..] == [];
    ms
  }

  /**
   * Each message is reported exactly when its own constraint fails, so the
   * Name and Slug checks do not hide each other, and no other message appears.
   */
  lemma ValidateMessages(m: EditorCategoryViewModel)
    ensures NameRequiredMessage in GetErrors(Validate(m)) <==> !RequiredHolds(m.name)
    ensures NameLengthMessage in GetErrors(Validate(m)) <==>
              (m.name.Some? && !(NameMinLength <= |m.name.value| <= NameMaxLength))
    ensures SlugRequiredMessage in GetErrors(Validate(m)) <==> !RequiredHolds(m.slug)
    ensures forall e :: e in GetErrors(Validate(m)) ==>
              e == NameRequiredMessage || e == NameLengthMessage || e == SlugRequiredMessage
  {
    MessagesDistinct();
  }

  /** With both properties missing, both Required messages are reported. */
  lemma BothMissingReportsBoth()
    ensures GetErrors(Validate(EditorCategoryViewModel(None, None))) == [NameRequiredMessage, SlugRequiredMessage]
  {
  }

  /** An empty name fails both of its constraints: it is blank and shorter than 3. */
  lemma EmptyNameReportsBoth(slug: Option<string>)
    ensures NameRequiredMessage in GetErrors(Validate(EditorCategoryViewModel(Some(""), slug)))
    ensures NameLengthMessage in GetErrors(Validate(EditorCategoryViewModel(Some(""), slug)))
  {
    ValidateMessages(EditorCategoryViewModel(Some(""), slug));
  }
}
